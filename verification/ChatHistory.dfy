/** history.py: the bounded window of chat turns kept per session, in memory and in
    PostgreSQL, and what providers.py shows a model of it. */
module ChatHistory {
  import opened Sequences
  import opened TokenBudget
  import opened Citations

  datatype Session = Session(tenant: string, user: string, session: string)

  function LastN<T>(s: seq<T>, n: nat): seq<T> {
    if |s| <= n then s else s[|s| - n..]
  }

  function Lookup(m: map<Session, seq<ChatTurn>>, key: Session): seq<ChatTurn> {
    if key in m then m[key] else []
  }

  /** What is stored for every session is the last `max` turns of its log. */
  ghost predicate Windowed(messages: map<Session, seq<ChatTurn>>, log: map<Session, seq<ChatTurn>>, max: nat) {
    forall key :: Lookup(messages, key) == LastN(Lookup(log, key), max)
  }

  lemma WindowedAppend(messages: map<Session, seq<ChatTurn>>, log: map<Session, seq<ChatTurn>>, max: nat,
                       key: Session, turns: seq<ChatTurn>)
    requires Windowed(messages, log, max)
    ensures Windowed(messages[key := LastN(Lookup(messages, key) + turns, max)], log[key := Lookup(log, key) + turns], max)
  {
    var messages', log' := messages[key := LastN(Lookup(messages, key) + turns, max)], log[key := Lookup(log, key) + turns];
    forall k ensures Lookup(messages', k) == LastN(Lookup(log', k), max) {
      assert Lookup(messages, k) == LastN(Lookup(log, k), max);
      if k == key {
        LastNAppend(Lookup(log, key), turns, max);
      }
    }
  }

  lemma WindowedClear(messages: map<Session, seq<ChatTurn>>, log: map<Session, seq<ChatTurn>>, max: nat, key: Session)
    requires Windowed(messages, log, max)
    ensures Windowed(messages - {key}, log - {key}, max)
  {
    forall k | k != key ensures Lookup(messages - {key}, k) == LastN(Lookup(log - {key}, k), max) {
      assert Lookup(messages, k) == LastN(Lookup(log, k), max);
    }
  }

  class ChatHistoryStore {
    const maxMessages: nat
    var messages: map<Session, seq<ChatTurn>>
    ghost var log: map<Session, seq<ChatTurn>>   // everything since the last clear

    ghost predicate Valid()
      reads this
    {
      Windowed(messages, log, maxMessages)
    }

    constructor (maxTurns: nat)
      requires maxTurns > 0
      ensures Valid() && maxMessages == 2 * maxTurns && messages == map[] && log == map[]
    {
      maxMessages, messages, log := 2 * maxTurns, map[], map[];
    }

    method Get(key: Session) returns (turns: seq<ChatTurn>)
      requires Valid()
      ensures turns == LastN(Lookup(log, key), maxMessages)
    {
      turns := Lookup(messages, key);
    }

    method Append(key: Session, turns: seq<ChatTurn>)
      requires Valid()
      modifies this
      ensures Valid() && log == old(log)[key := Lookup(old(log), key) + turns]
      ensures messages == old(messages)[key := LastN(Lookup(old(messages), key) + turns, maxMessages)]
    {
      var extended := Lookup(messages, key) + turns;
      messages := messages[key := if |extended| > maxMessages then extended[|extended| - maxMessages..] else extended];
      log := log[key := Lookup(log, key) + turns];
      WindowedAppend(old(messages), old(log), maxMessages, key, turns);
    }

    method Clear(key: Session)
      requires Valid()
      modifies this
      ensures Valid() && log == old(log) - {key} && messages == old(messages) - {key}
    {
      messages := messages - {key};
      log := log - {key};
      WindowedClear(old(messages), old(log), maxMessages, key);
    }
  }

  lemma LastNAppend<T>(s: seq<T>, t: seq<T>, n: nat)
    ensures LastN(LastN(s, n) + t, n) == LastN(s + t, n)
  {
  }

  /* ---- runs of exchanges ---- */

  datatype Op = Exchange(key: Session, question: string, answer: string) | Clear(key: Session)

  function Asked(question: string): ChatTurn { ChatTurn(User, question) }

  function Replied(answer: string): ChatTurn { ChatTurn(Assistant, answer) }

  function Pair(question: string, answer: string): seq<ChatTurn> { [Asked(question), Replied(answer)] }

  /** The full log of one session since its last clear. */
  function LogOf(run: seq<Op>, key: Session): seq<ChatTurn> {
    if run == [] then [] else
      match Last(run)
      case Exchange(k, q, a) => LogOf(Init(run), key) + if k == key then Pair(q, a) else []
      case Clear(k) => if k == key then [] else LogOf(Init(run), key)
  }

  /** The in-memory store: extend, then truncate in place. */
  function MemAfter(run: seq<Op>, max: nat): map<Session, seq<ChatTurn>> {
    if run == [] then map[] else
      var m := MemAfter(Init(run), max);
      match Last(run)
      case Exchange(k, q, a) => m[k := LastN(Lookup(m, k) + Pair(q, a), max)]
      case Clear(k) => m - {k}
  }

  /** A row of chat_messages; ids come from a sequence, so the table is in id order. */
  datatype Message = Message(id: nat, key: Session, turn: ChatTurn)

  datatype Table = Table(rows: seq<Message>, nextId: nat)

  function OfSession(key: Session): Message -> bool { (m: Message) => m.key == key }

  function NotOf(key: Session): Message -> bool { (m: Message) => m.key != key }

  function TurnOf(m: Message): ChatTurn { m.turn }

  /** WHERE key does not match OR id IN (the newest `max` ids of the session) */
  function Retained(key: Session, newest: seq<Message>): Message -> bool {
    (m: Message) => m.key != key || m in newest
  }

  function Prune(rows: seq<Message>, key: Session, max: nat): seq<Message> {
    Filter(Retained(key, LastN(Filter(OfSession(key), rows), max)), rows)
  }

  /** INSERT the two messages, then DELETE what fell out of the window. */
  function Inserted(t: Table, k: Session, first: ChatTurn, second: ChatTurn, max: nat): Table {
    Table(Prune(Grown(t, k, first, second), k, max), t.nextId + 2)
  }

  function Grown(t: Table, k: Session, first: ChatTurn, second: ChatTurn): seq<Message> {
    t.rows + [Message(t.nextId, k, first)] + [Message(t.nextId + 1, k, second)]
  }

  function SqlAfter(run: seq<Op>, max: nat): Table {
    if run == [] then Table([], 0) else
      var t := SqlAfter(Init(run), max);
      match Last(run)
      case Exchange(k, q, a) => Inserted(t, k, Asked(q), Replied(a), max)
      case Clear(k) => t.(rows := Filter(NotOf(k), t.rows))
  }

  /** SELECT the newest `max` messages of the session, oldest first. */
  function SqlGet(t: Table, key: Session, max: nat): seq<ChatTurn> {
    Map(TurnOf, LastN(Filter(OfSession(key), t.rows), max))
  }

  ghost predicate Below(rows: seq<Message>, id: nat) {
    forall m :: m in rows ==> m.id < id
  }

  /** Ids increase. */
  ghost predicate Ordered(rows: seq<Message>) {
    rows == [] || (Ordered(Init(rows)) && Below(Init(rows), Last(rows).id))
  }

  ghost predicate TableValid(t: Table) {
    Ordered(t.rows) && Below(t.rows, t.nextId)
  }

  lemma OrderedNext(rows: seq<Message>, m: Message)
    requires Ordered(rows) && Below(rows, m.id)
    ensures Ordered(rows + [m])
  {
    assert Init(rows + [m]) == rows;
  }

  lemma {:induction false} FilterKeepsOrder(p: Message -> bool, rows: seq<Message>)
    requires Ordered(rows)
    ensures Ordered(Filter(p, rows))
  {
    if rows != [] {
      var kept := Filter(p, Init(rows));
      FilterKeepsOrder(p, Init(rows));
      if p(Last(rows)) {
        assert Below(kept, Last(rows).id) by { FilterMember(p, Init(rows)); }
        OrderedNext(kept, Last(rows));
      } else {
        assert Filter(p, rows) == kept + [] == kept;
      }
    }
  }

  lemma {:induction false} OrderedDisjoint(older: seq<Message>, newer: seq<Message>)
    requires Ordered(older + newer)
    ensures forall m :: m in older ==> m !in newer
  {
    if newer != [] {
      assert Init(older + newer) == older + Init(newer);
      OrderedDisjoint(older, Init(newer));
      assert newer == Init(newer) + [Last(newer)];
      forall m | m in older ensures m != Last(newer) {
        assert m in older + Init(newer);
      }
    }
  }

  /** Keeping the rows found among the newest keeps exactly those, in order. */
  lemma KeepNewest(older: seq<Message>, newest: seq<Message>, key: Session)
    requires Ordered(older + newest)
    requires forall m :: m in older ==> m.key == key
    ensures Filter(Retained(key, newest), older + newest) == newest
  {
    var p := Retained(key, newest);
    FilterConcat(p, older, newest);
    FilterAll(p, newest);
    OrderedDisjoint(older, newest);
    FilterNone(p, older);
  }

  lemma SplitLast<T>(s: seq<T>, n: nat) returns (older: seq<T>)
    ensures s == older + LastN(s, n) && forall x :: x in older ==> x in s
  {
    older := s[..|s| - |LastN(s, n)|];
  }

  /** The DELETE leaves the session's newest `max` messages and other sessions' messages. */
  lemma PruneKeepsWindow(rows: seq<Message>, key: Session, max: nat, other: Session)
    requires Ordered(rows)
    ensures Filter(OfSession(key), Prune(rows, key, max)) == LastN(Filter(OfSession(key), rows), max)
    ensures other != key ==> Filter(OfSession(other), Prune(rows, key, max)) == Filter(OfSession(other), rows)
  {
    var mine := Filter(OfSession(key), rows);
    var p := Retained(key, LastN(mine, max));
    FilterSwap(OfSession(key), p, rows);
    assert Filter(p, mine) == LastN(mine, max) by {
      FilterKeepsOrder(OfSession(key), rows);
      FilterMember(OfSession(key), rows);
      var older := SplitLast(mine, max);
      KeepNewest(older, LastN(mine, max), key);
    }
    if other != key {
      FilterSwap(OfSession(other), p, rows);
      FilterMember(OfSession(other), rows);
      FilterAll(p, Filter(OfSession(other), rows));
    }
  }

  lemma TableGrows(t: Table, a: Message, b: Message)
    requires TableValid(t) && a.id == t.nextId && b.id == t.nextId + 1
    ensures Ordered(t.rows + [a] + [b]) && Below(t.rows + [a] + [b], t.nextId + 2)
  {
    OrderedNext(t.rows, a);
    assert Below(t.rows + [a], b.id);
    OrderedNext(t.rows + [a], b);
  }

  lemma InsertedValid(t: Table, k: Session, first: ChatTurn, second: ChatTurn, max: nat)
    requires TableValid(t)
    ensures TableValid(Inserted(t, k, first, second, max))
  {
    GrownOrdered(t, k, first, second);
    PruneValid(Grown(t, k, first, second), k, max, t.nextId + 2);
  }

  lemma PruneValid(rows: seq<Message>, k: Session, max: nat, id: nat)
    requires Ordered(rows) && Below(rows, id)
    ensures Ordered(Prune(rows, k, max)) && Below(Prune(rows, k, max), id)
  {
    var p := Retained(k, LastN(Filter(OfSession(k), rows), max));
    FilterKeepsOrder(p, rows);
    FilterMember(p, rows);
  }

  lemma {:induction false} SqlTableValid(run: seq<Op>, max: nat)
    ensures TableValid(SqlAfter(run, max))
  {
    if run != [] {
      var t := SqlAfter(Init(run), max);
      SqlTableValid(Init(run), max);
      match Last(run) {
        case Exchange(k, q, a) => InsertedValid(t, k, Asked(q), Replied(a), max);
        case Clear(k) =>
          FilterKeepsOrder(NotOf(k), t.rows);
          FilterMember(NotOf(k), t.rows);
      }
    }
  }

  lemma MapLastN<A, B>(f: A -> B, s: seq<A>, n: nat)
    ensures Map(f, LastN(s, n)) == LastN(Map(f, s), n)
  {
  }

  /** In memory, a session's messages are always the last `max` of its full log. */
  lemma {:induction false} MemoryKeepsWindow(run: seq<Op>, max: nat, key: Session)
    ensures Lookup(MemAfter(run, max), key) == LastN(LogOf(run, key), max)
  {
    if run != [] {
      MemoryKeepsWindow(Init(run), max, key);
      match Last(run) {
        case Exchange(k, q, a) =>
          LastNAppend(LogOf(Init(run), key), Pair(q, a), max);
          assert LogOf(Init(run), key) + [] == LogOf(Init(run), key);
        case Clear(k) =>
      }
    }
  }

  function SessionTurns(rows: seq<Message>, key: Session): seq<ChatTurn> {
    Map(TurnOf, Filter(OfSession(key), rows))
  }

  lemma SessionInsert(rows: seq<Message>, x: Message, y: Message, key: Session)
    requires x.key == y.key
    ensures SessionTurns(rows + [x] + [y], key) == SessionTurns(rows, key) + if x.key == key then [x.turn, y.turn] else []
  {
    var mine := Filter(OfSession(key), rows);
    FilterConcat(OfSession(key), rows + [x], [y]);
    FilterConcat(OfSession(key), rows, [x]);
    assert Init([x]) == [] && Init([y]) == [];
    if x.key == key {
      assert Filter(OfSession(key), rows + [x] + [y]) == mine + [x] + [y];
    } else {
      assert Filter(OfSession(key), rows + [x] + [y]) == mine;
    }
  }

  lemma PrunedTurns(rows: seq<Message>, k: Session, max: nat, key: Session)
    requires Ordered(rows)
    ensures SessionTurns(Prune(rows, k, max), key)
         == if key == k then LastN(SessionTurns(rows, key), max) else SessionTurns(rows, key)
  {
    PruneKeepsWindow(rows, k, max, key);
    MapLastN(TurnOf, Filter(OfSession(key), rows), max);
  }

  lemma SqlExchange(t: Table, k: Session, first: ChatTurn, second: ChatTurn, max: nat, key: Session)
    requires TableValid(t)
    ensures SessionTurns(Inserted(t, k, first, second, max).rows, key)
         == if key == k then LastN(SessionTurns(t.rows, key) + [first, second], max) else SessionTurns(t.rows, key)
  {
    GrownOrdered(t, k, first, second);
    GrownTurns(t, k, first, second, key);
    PrunedTurns(Grown(t, k, first, second), k, max, key);
  }

  lemma GrownOrdered(t: Table, k: Session, first: ChatTurn, second: ChatTurn)
    requires TableValid(t)
    ensures Ordered(Grown(t, k, first, second)) && Below(Grown(t, k, first, second), t.nextId + 2)
  {
    TableGrows(t, Message(t.nextId, k, first), Message(t.nextId + 1, k, second));
  }

  lemma GrownTurns(t: Table, k: Session, first: ChatTurn, second: ChatTurn, key: Session)
    ensures SessionTurns(Grown(t, k, first, second), key)
         == SessionTurns(t.rows, key) + if k == key then [first, second] else []
  {
    SessionInsert(t.rows, Message(t.nextId, k, first), Message(t.nextId + 1, k, second), key);
  }

  lemma SqlClear(t: Table, k: Session, key: Session)
    ensures SessionTurns(Filter(NotOf(k), t.rows), key) == if key == k then [] else SessionTurns(t.rows, key)
  {
    var mine := Filter(OfSession(key), t.rows);
    FilterSwap(OfSession(key), NotOf(k), t.rows);
    FilterMember(OfSession(key), t.rows);
    if key == k {
      FilterNone(NotOf(k), mine);
    } else {
      FilterAll(NotOf(k), mine);
    }
  }

  /** PostgreSQL stores exactly the same window. */
  lemma {:induction false} SqlKeepsWindow(run: seq<Op>, max: nat, key: Session)
    ensures SessionTurns(SqlAfter(run, max).rows, key) == LastN(LogOf(run, key), max)
  {
    if run != [] {
      var t := SqlAfter(Init(run), max);
      SqlKeepsWindow(Init(run), max, key);
      SqlTableValid(Init(run), max);
      match Last(run) {
        case Exchange(k, q, a) =>
          SqlExchange(t, k, Asked(q), Replied(a), max, key);
          LastNAppend(LogOf(Init(run), key), Pair(q, a), max);
          assert LogOf(Init(run), key) + [] == LogOf(Init(run), key);
        case Clear(k) => SqlClear(t, k, key);
      }
    }
  }

  /** So after every run both stores return the same messages. */
  lemma StoresAgree(run: seq<Op>, max: nat, key: Session)
    ensures SqlGet(SqlAfter(run, max), key, max) == Lookup(MemAfter(run, max), key)
  {
    SqlKeepsWindow(run, max, key);
    MemoryKeepsWindow(run, max, key);
    MapLastN(TurnOf, Filter(OfSession(key), SqlAfter(run, max).rows), max);
  }

  /* ---- what a model sees ---- */

  ghost predicate Alternates(turns: seq<ChatTurn>) {
    && |turns| % 2 == 0
    && forall i :: 0 <= i < |turns| ==> turns[i].role == if i % 2 == 0 then User else Assistant
  }

  lemma {:induction false} LogAlternates(run: seq<Op>, key: Session)
    ensures Alternates(LogOf(run, key))
  {
    if run != [] {
      LogAlternates(Init(run), key);
    }
  }

  /** Every stored window is whole exchanges, a question first. */
  lemma WindowAlternates(run: seq<Op>, turns: nat, key: Session)
    ensures Alternates(Lookup(MemAfter(run, 2 * turns), key))
  {
    MemoryKeepsWindow(run, 2 * turns, key);
    LogAlternates(run, key);
    SuffixAlternates(LogOf(run, key), turns);
  }

  lemma SuffixAlternates(log: seq<ChatTurn>, turns: nat)
    requires Alternates(log)
    ensures Alternates(LastN(log, 2 * turns))
  {
    if |log| > 2 * turns {
      var cut := |log| - 2 * turns;
      var window := log[cut..];
      forall i | 0 <= i < |window| ensures window[i].role == if i % 2 == 0 then User else Assistant {
        assert window[i] == log[cut + i] && (cut + i) % 2 == i % 2;
      }
    }
  }

  predicate Declined(abstention: string, t: ChatTurn) { t.role == Assistant && Trim(t.content) == abstention }

  /** Earlier answers lose their citation markers: they pointed at other sources. */
  function WithoutCitations(t: ChatTurn): ChatTurn {
    if t.role == Assistant then ChatTurn(Assistant, Trim(Rewrite(t.content, 0))) else t
  }

  /** One turn of the loop in history_for_model. */
  function Show(abstention: string, kept: seq<ChatTurn>, turn: ChatTurn): seq<ChatTurn> {
    if Declined(abstention, turn) then (if kept != [] && Last(kept).role == User then Init(kept) else kept)
    else kept + [WithoutCitations(turn)]
  }

  function Shown(abstention: string, history: seq<ChatTurn>): seq<ChatTurn> {
    if history == [] then [] else Show(abstention, Shown(abstention, Init(history)), Last(history))
  }

  method HistoryForModel(abstention: string, history: seq<ChatTurn>) returns (kept: seq<ChatTurn>)
    ensures kept == Shown(abstention, history)
    ensures Alternates(history) ==> kept == AnsweredPairs(abstention, history)
  {
    kept := [];
    var i := 0;
    while i < |history|
      invariant 0 <= i <= |history| && kept == Shown(abstention, history[..i])
    {
      var turn := history[i];
      assert Init(history[..i + 1]) == history[..i] && Last(history[..i + 1]) == turn;
      if Declined(abstention, turn) {
        if kept != [] && Last(kept).role == User {
          kept := kept[..|kept| - 1];
        }
      } else {
        kept := kept + [WithoutCitations(turn)];
      }
      i := i + 1;
    }
    assert history[..i] == history;
    if Alternates(history) {
      ShownIsPairwise(abstention, history);
    }
  }

  /** Whole exchanges whose answer was not the abstention. */
  function AnsweredPairs(abstention: string, history: seq<ChatTurn>): seq<ChatTurn> {
    if |history| < 2 then [] else
      var n := |history|;
      AnsweredPairs(abstention, history[..n - 2])
      + if Declined(abstention, history[n - 1]) then [] else [history[n - 2], WithoutCitations(history[n - 1])]
  }

  /** On whole exchanges, popping the last question is dropping the declined exchange. */
  lemma {:induction false} ShownIsPairwise(abstention: string, history: seq<ChatTurn>)
    requires Alternates(history)
    ensures Shown(abstention, history) == AnsweredPairs(abstention, history)
    decreases |history|
  {
    if history != [] {
      var before, question, answer := LastExchange(history);
      ShownIsPairwise(abstention, before);
      PairwiseStep(abstention, before, question, answer);
    }
  }

  lemma PairwiseStep(abstention: string, before: seq<ChatTurn>, question: ChatTurn, answer: ChatTurn)
    requires question.role == User && answer.role == Assistant
    requires Shown(abstention, before) == AnsweredPairs(abstention, before)
    ensures Shown(abstention, before + [question] + [answer]) == AnsweredPairs(abstention, before + [question] + [answer])
  {
    ShownTwice(abstention, before, question, answer);
    PairsNext(abstention, before, question, answer);
    ShowExchange(abstention, AnsweredPairs(abstention, before), question, answer);
  }

  lemma PairsNext(abstention: string, before: seq<ChatTurn>, question: ChatTurn, answer: ChatTurn)
    ensures AnsweredPairs(abstention, before + [question] + [answer])
         == AnsweredPairs(abstention, before) + if Declined(abstention, answer) then [] else [question, WithoutCitations(answer)]
  {
    var history := before + [question] + [answer];
    assert history[..|history| - 2] == before;
  }

  lemma LastExchange(history: seq<ChatTurn>) returns (before: seq<ChatTurn>, question: ChatTurn, answer: ChatTurn)
    requires Alternates(history) && history != []
    ensures history == before + [question] + [answer] && Alternates(before)
    ensures question.role == User && answer.role == Assistant
  {
    var n := |history|;
    before, question, answer := history[..n - 2], history[n - 2], history[n - 1];
  }

  lemma ShownTwice(abstention: string, before: seq<ChatTurn>, a: ChatTurn, b: ChatTurn)
    ensures Shown(abstention, before + [a] + [b]) == Show(abstention, Show(abstention, Shown(abstention, before), a), b)
  {
    assert Init(before + [a] + [b]) == before + [a] && Init(before + [a]) == before;
  }

  lemma ShowExchange(abstention: string, kept: seq<ChatTurn>, question: ChatTurn, answer: ChatTurn)
    requires question.role == User && answer.role == Assistant
    ensures Show(abstention, Show(abstention, kept, question), answer)
         == kept + if Declined(abstention, answer) then [] else [question, WithoutCitations(answer)]
  {
    var asked := kept + [question];
    assert Show(abstention, kept, question) == asked;
    assert Init(asked) == kept && Last(asked) == question;
  }

  /** So for every run, what the model sees is the answered exchanges of the window. */
  lemma ModelSeesAnsweredPairs(abstention: string, run: seq<Op>, turns: nat, key: Session)
    ensures Shown(abstention, LastN(LogOf(run, key), 2 * turns)) == AnsweredPairs(abstention, LastN(LogOf(run, key), 2 * turns))
  {
    MemoryKeepsWindow(run, 2 * turns, key);
    WindowAlternates(run, turns, key);
    ShownIsPairwise(abstention, LastN(LogOf(run, key), 2 * turns));
  }

  /* ---- what a shown turn looks like ---- */

  /** Every shown turn is a turn of the history: a question as it was asked, or an answer that
      did not decline, without its citation markers. */
  ghost predicate ComesFrom(abstention: string, history: seq<ChatTurn>, shown: ChatTurn, i: nat) {
    && i < |history| && shown.role == history[i].role
    && (shown.role != Assistant ==> shown == history[i])
    && (shown.role == Assistant ==>
          && Trim(history[i].content) != abstention
          && shown.content == Trim(Rewrite(history[i].content, 0)))
  }

  lemma {:induction false} ShownComesFrom(abstention: string, history: seq<ChatTurn>, j: nat) returns (i: nat)
    requires j < |Shown(abstention, history)|
    ensures ComesFrom(abstention, history, Shown(abstention, history)[j], i)
  {
    var before := Shown(abstention, Init(history));
    if j < |before| {
      i := ShownComesFrom(abstention, Init(history), j);
      assert Init(history)[i] == history[i];
    } else {
      i := |history| - 1;
    }
  }

  /** A shown answer cites nothing, unless removing its markers made a new one. */
  lemma ShownCitesNothing(abstention: string, history: seq<ChatTurn>, i: nat, shown: ChatTurn)
    requires ComesFrom(abstention, history, shown, i) && shown.role == Assistant
    ensures Numbers(shown.content) == [] <==> !Bridges(history[i].content, 0)
  {
    StripCorrect(history[i].content, 0);
    assert forall n :: !InRange(0)(n);
    FilterNone(InRange(0), Numbers(history[i].content));
  }

  /** The declined test looks at the answer before its markers go: an abstention that carries
      a citation is not recognised, and is shown as a plain abstention. */
  lemma CitedAbstentionIsShown(abstention: string, question: ChatTurn)
    requires abstention != "" && '[' !in abstention && Trim(abstention) == abstention && question.role == User
    ensures var history := [question] + [ChatTurn(Assistant, abstention + Marked(1))];
            Shown(abstention, history) == [question] + [ChatTurn(Assistant, abstention)]
  {
    CitedAbstentionKept(abstention, abstention + Marked(1));
    OneExchange(abstention, question, ChatTurn(Assistant, abstention + Marked(1)));
  }

  lemma CitedAbstentionKept(abstention: string, content: string)
    requires abstention != "" && '[' !in abstention && Trim(abstention) == abstention
    requires content == abstention + Marked(1)
    ensures !Declined(abstention, ChatTurn(Assistant, content))
    ensures WithoutCitations(ChatTurn(Assistant, content)) == ChatTurn(Assistant, abstention)
  {
    MarkedNotTrimmed(abstention);
    RewriteMarked(abstention);
  }

  lemma OneExchange(abstention: string, question: ChatTurn, answer: ChatTurn)
    requires question.role == User && answer.role == Assistant && !Declined(abstention, answer)
    ensures Shown(abstention, [question] + [answer]) == [question] + [WithoutCitations(answer)]
  {
    ShownTwice(abstention, [], question, answer);
    ShowExchange(abstention, [], question, answer);
    assert [] + [question] + [answer] == [question] + [answer];
  }

  lemma {:induction false} RewriteMarked(before: string)
    requires '[' !in before
    ensures Rewrite(before + Marked(1), 0) == before
  {
    if before == "" {
      DecimalRoundTrip(1);
      MarkerAlone(Decimal(1), "", Marked(1));
      assert before + Marked(1) == Marked(1);
      FilterNone(Valid(0), [Decimal(1)]);
    } else {
      assert before + Marked(1) == [before[0]] + (before[1..] + Marked(1));
      RewriteMarked(before[1..]);
      RewritePlain(before[0], before[1..] + Marked(1), 0);
    }
  }

  lemma MarkedNotTrimmed(before: string)
    requires before != "" && '[' !in before && Trim(before) == before
    ensures Trim(before + Marked(1)) != before
  {
    var text := before + Marked(1);
    SkipSpacesStarts(before);
    assert before[0] == text[0];
    FirstKept(before);
    assert SkipSpaces(text) == text;
    assert Last(text) == ']';
    assert |text| > |before|;
  }

  lemma FirstKept(s: string)
    requires s != "" && Trim(s) == s
    ensures !IsSpace(s[0])
  {
    TrimRemovesSpaces(s);
  }

  /** The window is a suffix, as long as it may be. */
  lemma LastNIsSuffix<T>(s: seq<T>, n: nat)
    ensures |LastN(s, n)| == (if |s| < n then |s| else n)
    ensures exists k :: 0 <= k <= |s| && LastN(s, n) == s[k..]
  {
    var k := |s| - |LastN(s, n)|;
    assert LastN(s, n) == s[k..];
  }
}
