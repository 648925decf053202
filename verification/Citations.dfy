/** providers.py: citation markers such as [1] or [2, 3] in a model's answer, and how api.py
    turns them into citations. Text is ASCII. */
module Citations {
  import opened Sequences

  predicate IsDigit(c: char) { '0' <= c <= '9' }

  /** Tab to carriage return, the four separators, and the blank. */
  predicate IsSpace(c: char) { '\U{0009}' <= c <= '\U{000D}' || '\U{001C}' <= c <= '\U{0020}' }

  /** The leading digits of a text, and what follows them. */
  function Digits(s: string): (r: (string, string))
    ensures |r.0| + |r.1| == |s|
  {
    if s == "" || !IsDigit(s[0]) then ("", s)
    else var (d, rest) := Digits(s[1..]); ([s[0]] + d, rest)
  }

  function SkipSpaces(s: string): (r: string)
    ensures |r| <= |s|
  {
    if s == "" || !IsSpace(s[0]) then s else SkipSpaces(s[1..])
  }

  /** A marker: its numbers as written, and the text after it. */
  datatype Marker = Marker(parts: seq<string>, rest: string)

  /** Numbers separated by commas (with spaces around them) up to the closing bracket. */
  function MatchList(s: string): (m: Option<Marker>)
    ensures m.Some? ==> |m.value.rest| < |s|
    decreases |s|
  {
    var (d, after) := Digits(s);
    if d == "" || after == "" then None
    else if after[0] == ']' then Some(Marker([d], after[1..]))
    else
      var comma := SkipSpaces(after);
      if comma == "" || comma[0] != ',' then None
      else match MatchList(SkipSpaces(comma[1..]))
        case None => None
        case Some(m) => Some(Marker([d] + m.parts, m.rest))
  }

  /** The marker at the start of a text. */
  function MatchAt(s: string): (m: Option<Marker>)
    ensures m.Some? ==> |m.value.rest| < |s|
  {
    if s == "" || s[0] != '[' then None else MatchList(s[1..])
  }

  predicate AllDigits(s: string) { s != "" && (forall i :: 0 <= i < |s| ==> IsDigit(s[i])) }

  ghost predicate AllNumbers(parts: seq<string>) {
    forall i :: 0 <= i < |parts| ==> AllDigits(parts[i])
  }

  function Value(digits: string): nat
    requires forall i :: 0 <= i < |digits| ==> IsDigit(digits[i])
  {
    if digits == "" then 0 else
      assert IsDigit(Last(digits));
      Value(Init(digits)) * 10 + (Last(digits) as int - '0' as int)
  }

  function PartValue(part: string): nat { if AllDigits(part) then Value(part) else 0 }

  /** The numbers cited by a text, marker by marker, in order. */
  function Numbers(s: string): seq<nat>
    decreases |s|
  {
    if s == "" then []
    else match MatchAt(s)
      case Some(m) => Map(PartValue, m.parts) + Numbers(m.rest)
      case None => Numbers(s[1..])
  }

  function InRange(count: nat): nat -> bool { (n: nat) => 1 <= n <= count }

  function Valid(count: nat): string -> bool { (part: string) => 1 <= PartValue(part) <= count }

  /** Numbers written back with commas, the closing bracket, and the text after it. */
  function WriteList(parts: seq<string>, rest: string): string
    requires parts != []
  {
    parts[0] + if |parts| == 1 then "]" + rest else "," + WriteList(parts[1..], rest)
  }

  /** The marker written back before `rest`; nothing if it has no numbers left. */
  function Write(parts: seq<string>, rest: string): string {
    if parts == [] then rest else "[" + WriteList(parts, rest)
  }

  /** Every marker rewritten to its valid numbers. */
  function Rewrite(s: string, count: nat): string
    decreases |s|
  {
    if s == "" then ""
    else match MatchAt(s)
      case Some(m) => Write(Filter(Valid(count), m.parts), Rewrite(m.rest, count))
      case None => [s[0]] + Rewrite(s[1..], count)
  }

  function TrimRight(s: string): string {
    if s == "" || !IsSpace(Last(s)) then s else TrimRight(Init(s))
  }

  function Trim(s: string): string { TrimRight(SkipSpaces(s)) }

  function StripInvalid(s: string, count: nat): string { Trim(Rewrite(s, count)) }

  function Cited(s: string, count: nat): seq<nat> {
    FirstOccurrences(Filter(InRange(count), Numbers(s)))
  }

  /** The loop of cited_sources over the numbers of the markers. */
  method Collect(numbers: seq<nat>, count: nat) returns (seen: seq<nat>)
    ensures seen == FirstOccurrences(Filter(InRange(count), numbers))
    ensures Distinct(seen) && forall n :: n in seen <==> n in numbers && 1 <= n <= count
  {
    seen := [];
    var i := 0;
    while i < |numbers|
      invariant 0 <= i <= |numbers|
      invariant seen == FirstOccurrences(Filter(InRange(count), numbers[..i]))
    {
      var number := numbers[i];
      CitedNext(numbers[..i], number, count);
      assert numbers[..i + 1] == numbers[..i] + [number];
      if 1 <= number <= count && number !in seen {
        seen := seen + [number];
      }
      i := i + 1;
    }
    assert numbers[..i] == numbers;
    FilterMember(InRange(count), numbers);
    FirstOccurrencesMember(Filter(InRange(count), numbers));
  }

  /** The valid source numbers of an answer, in order of first citation. */
  method CitedSources(answer: string, count: nat) returns (seen: seq<nat>)
    ensures seen == Cited(answer, count)
    ensures Distinct(seen) && forall n :: n in seen <==> n in Numbers(answer) && 1 <= n <= count
  {
    seen := Collect(Numbers(answer), count);
  }

  lemma CitedNext(before: seq<nat>, number: nat, count: nat)
    ensures var seen := FirstOccurrences(Filter(InRange(count), before));
            FirstOccurrences(Filter(InRange(count), before + [number]))
            == if 1 <= number <= count && number !in seen then seen + [number] else seen
  {
    var kept := Filter(InRange(count), before);
    assert Init(before + [number]) == before;
    if 1 <= number <= count {
      assert Filter(InRange(count), before + [number]) == kept + [number];
      assert Init(kept + [number]) == kept;
    } else {
      assert Filter(InRange(count), before + [number]) == kept;
    }
  }

  /* ---- stripping ---- */

  /** Where a reader of a number list stands. */
  datatype Scan = Opening | InNumber | AfterSpace | AfterComma

  /** The next character of a number list; None when the list cannot go on like that. */
  function Advance(at: Scan, c: char): Option<Scan> {
    if IsDigit(c) then (if at.AfterSpace? then None else Some(InNumber))
    else if c == ',' then (if at.InNumber? || at.AfterSpace? then Some(AfterComma) else None)
    else if !IsSpace(c) || at.Opening? then None
    else if at.AfterComma? then Some(AfterComma)
    else Some(AfterSpace)
  }

  /** A closing bracket is reached through numbers, commas and spaces, once the markers
      that cite nothing valid are skipped. */
  predicate Reaches(at: Scan, s: string, count: nat)
    decreases |s|
  {
    s != "" &&
    match MatchAt(s)
    case Some(m) => Filter(Valid(count), m.parts) == [] && Reaches(at, m.rest, count)
    case None =>
      if s[0] == ']' then at.InNumber?
      else Advance(at, s[0]).Some? && Reaches(Advance(at, s[0]).value, s[1..], count)
  }

  /** Some '[' that begins no marker becomes one when invalid markers behind it are removed. */
  predicate Bridges(s: string, count: nat)
    decreases |s|
  {
    s != "" &&
    match MatchAt(s)
    case Some(m) => Bridges(m.rest, count)
    case None => (s[0] == '[' && Reaches(Opening, s[1..], count)) || Bridges(s[1..], count)
  }

  /** Every '[' begins a citation marker. */
  predicate Clean(s: string)
    decreases |s|
  {
    if s == "" then true
    else match MatchAt(s)
      case Some(m) => Clean(m.rest)
      case None => s[0] != '[' && Clean(s[1..])
  }

  /** Every '[' begins a marker or is followed by neither a digit nor a '[', as in a link. */
  predicate Separate(s: string)
    decreases |s|
  {
    if s == "" then true
    else match MatchAt(s)
      case Some(m) => Separate(m.rest)
      case None => (s[0] == '[' && |s| > 1 ==> !IsDigit(s[1]) && s[1] != '[') && Separate(s[1..])
  }

  lemma {:induction false} SeparateDoesNotBridge(s: string, count: nat)
    requires Separate(s)
    ensures !Bridges(s, count)
    decreases |s|
  {
    if s != "" {
      match MatchAt(s) {
        case Some(m) => SeparateDoesNotBridge(m.rest, count);
        case None => SeparateDoesNotBridge(s[1..], count);
      }
    }
  }

  lemma {:induction false} CleanDoesNotBridge(s: string, count: nat)
    requires Clean(s)
    ensures !Bridges(s, count)
    decreases |s|
  {
    if s != "" {
      match MatchAt(s) {
        case Some(m) => CleanDoesNotBridge(m.rest, count);
        case None => CleanDoesNotBridge(s[1..], count);
      }
    }
  }

  lemma {:induction false} DigitsOnly(s: string)
    ensures forall i :: 0 <= i < |Digits(s).0| ==> IsDigit(Digits(s).0[i])
  {
    if s != "" && IsDigit(s[0]) {
      DigitsOnly(s[1..]);
    }
  }

  lemma {:induction false} MatchListNumbers(s: string)
    requires MatchList(s).Some?
    ensures AllNumbers(MatchList(s).value.parts) && MatchList(s).value.parts != []
    decreases |s|
  {
    var (d, after) := Digits(s);
    DigitsOnly(s);
    assert AllDigits(d);
    if after[0] != ']' {
      MatchListNumbers(SkipSpaces(SkipSpaces(after)[1..]));
    }
  }

  lemma {:induction false} DigitsExact(p: string, rest: string)
    requires forall i :: 0 <= i < |p| ==> IsDigit(p[i])
    requires rest != "" && !IsDigit(rest[0])
    ensures Digits(p + rest) == (p, rest)
  {
    if p == "" {
      assert p + rest == rest;
    } else {
      assert (p + rest)[1..] == p[1..] + rest;
      DigitsExact(p[1..], rest);
      assert p == [p[0]] + p[1..];
    }
  }

  lemma MatchClose(p: string, rest: string)
    requires AllDigits(p)
    ensures MatchList(p + ("]" + rest)) == Some(Marker([p], rest))
  {
    DigitsExact(p, "]" + rest);
    assert ("]" + rest)[1..] == rest;
  }

  lemma MatchComma(p: string, tail: string)
    requires AllDigits(p) && tail != "" && IsDigit(tail[0]) && MatchList(tail).Some?
    ensures MatchList(p + ("," + tail)) == Some(Marker([p] + MatchList(tail).value.parts, MatchList(tail).value.rest))
  {
    var after := "," + tail;
    DigitsExact(p, after);
    assert after[1..] == tail && SkipSpaces(after) == after && SkipSpaces(tail) == tail;
  }

  lemma {:induction false} WriteListMatches(parts: seq<string>, rest: string)
    requires parts != [] && AllNumbers(parts)
    ensures MatchList(WriteList(parts, rest)) == Some(Marker(parts, rest))
    ensures WriteList(parts, rest) != "" && IsDigit(WriteList(parts, rest)[0])
  {
    var p := parts[0];
    assert AllDigits(p);
    if |parts| == 1 {
      MatchClose(p, rest);
      assert parts == [p];
    } else {
      WriteListMatches(parts[1..], rest);
      MatchComma(p, WriteList(parts[1..], rest));
      assert parts == [p] + parts[1..];
    }
  }

  /** A marker as written back is recognised again, whatever follows. */
  lemma WriteMatches(parts: seq<string>, rest: string)
    requires parts != [] && AllNumbers(parts)
    ensures MatchAt(Write(parts, rest)) == Some(Marker(parts, rest))
  {
    WriteListMatches(parts, rest);
    assert Write(parts, rest)[1..] == WriteList(parts, rest);
  }

  lemma {:induction false} ValuesOfValid(parts: seq<string>, count: nat)
    ensures Map(PartValue, Filter(Valid(count), parts)) == Filter(InRange(count), Map(PartValue, parts))
  {
    if parts != [] {
      ValuesOfValid(Init(parts), count);
      assert Init(Map(PartValue, parts)) == Map(PartValue, Init(parts));
    }
  }

  lemma KeptNumbers(s: string, m: Marker, count: nat)
    requires MatchAt(s) == Some(m)
    ensures AllNumbers(Filter(Valid(count), m.parts))
    ensures Filter(Valid(count), Filter(Valid(count), m.parts)) == Filter(Valid(count), m.parts)
  {
    MatchListNumbers(s[1..]);
    var kept := Filter(Valid(count), m.parts);
    FilterMember(Valid(count), m.parts);
    forall i | 0 <= i < |kept| ensures AllDigits(kept[i]) {
      assert kept[i] in kept;
    }
    FilterAbsorb(Valid(count), Valid(count), m.parts);
  }

  /* ---- number lists, character by character ---- */

  predicate Accepts(at: Scan, s: string)
    decreases |s|
  {
    s != "" &&
    if s[0] == ']' then at.InNumber?
    else Advance(at, s[0]).Some? && Accepts(Advance(at, s[0]).value, s[1..])
  }

  lemma {:induction false} AcceptsDigits(s: string)
    ensures Accepts(InNumber, s) <==> Accepts(InNumber, Digits(s).1)
  {
    if s != "" && IsDigit(s[0]) {
      AcceptsDigits(s[1..]);
    }
  }

  lemma {:induction false} AcceptsSpaces(at: Scan, s: string)
    requires at.AfterSpace? || at.AfterComma?
    ensures Accepts(at, s) <==> Accepts(at, SkipSpaces(s))
  {
    if s != "" && IsSpace(s[0]) {
      AcceptsSpaces(at, s[1..]);
    }
  }

  lemma {:induction false} SkipSpacesStarts(s: string)
    ensures SkipSpaces(s) == "" || !IsSpace(SkipSpaces(s)[0])
  {
    if s != "" && IsSpace(s[0]) {
      SkipSpacesStarts(s[1..]);
    }
  }

  lemma {:induction false} DigitsEnd(s: string)
    ensures Digits(s).1 == "" || !IsDigit(Digits(s).1[0])
  {
    if s != "" && IsDigit(s[0]) {
      DigitsEnd(s[1..]);
    }
  }

  /** After a number and no closing bracket, a list goes on with a comma. */
  lemma AcceptsComma(after: string)
    requires after != "" && !IsDigit(after[0]) && after[0] != ']'
    ensures Accepts(InNumber, after) <==>
              var comma := SkipSpaces(after);
              comma != "" && comma[0] == ',' && Accepts(Opening, SkipSpaces(comma[1..]))
  {
    assert Accepts(InNumber, after) <==> Accepts(AfterSpace, after);
    AcceptsSpaces(AfterSpace, after);
    var comma := SkipSpaces(after);
    SkipSpacesStarts(after);
    if comma != "" && comma[0] == ',' {
      AcceptsSpaces(AfterComma, comma[1..]);
      SkipSpacesStarts(comma[1..]);
      SameStart(SkipSpaces(comma[1..]));
    }
  }

  lemma SameStart(s: string)
    requires s == "" || !IsSpace(s[0])
    ensures Accepts(AfterComma, s) <==> Accepts(Opening, s)
  {
  }

  lemma AcceptsNumber(s: string)
    requires s != "" && IsDigit(s[0])
    ensures Accepts(Opening, s) <==> Accepts(InNumber, Digits(s).1)
    ensures Digits(s).0 != ""
  {
    AcceptsDigits(s[1..]);
  }

  /** The scan accepts exactly what the marker pattern matches. */
  lemma {:induction false} AcceptsList(s: string)
    ensures Accepts(Opening, s) <==> MatchList(s).Some?
    decreases |s|
  {
    if s != "" && IsDigit(s[0]) {
      AcceptsNumber(s);
      DigitsEnd(s);
      var after := Digits(s).1;
      if after != "" && after[0] != ']' {
        AcceptsComma(after);
        var comma := SkipSpaces(after);
        if comma != "" && comma[0] == ',' {
          AcceptsList(SkipSpaces(comma[1..]));
        }
      }
    }
  }

  /** Scanning past the invalid markers of the input is scanning the rewritten text. */
  lemma {:induction false} ReachesRewritten(at: Scan, s: string, count: nat)
    ensures Reaches(at, s, count) <==> Accepts(at, Rewrite(s, count))
    decreases |s|
  {
    if s != "" {
      match MatchAt(s) {
        case Some(m) =>
          if Filter(Valid(count), m.parts) == [] {
            ReachesRewritten(at, m.rest, count);
          }
        case None =>
          var rest := Rewrite(s[1..], count);
          assert Rewrite(s, count) == [s[0]] + rest && ([s[0]] + rest)[1..] == rest;
          if s[0] != ']' && Advance(at, s[0]).Some? {
            ReachesRewritten(Advance(at, s[0]).value, s[1..], count);
          }
      }
    }
  }

  /* ---- numbers behind plain text ---- */

  lemma PlainNumbers(c: char, s: string)
    requires c != '['
    ensures Numbers([c] + s) == Numbers(s)
  {
    assert ([c] + s)[1..] == s;
  }

  lemma {:induction false} NumbersAfterDigits(s: string)
    ensures Numbers(s) == Numbers(Digits(s).1)
  {
    if s != "" && IsDigit(s[0]) {
      NumbersAfterDigits(s[1..]);
    }
  }

  lemma {:induction false} NumbersAfterSpaces(s: string)
    ensures Numbers(s) == Numbers(SkipSpaces(s))
  {
    if s != "" && IsSpace(s[0]) {
      NumbersAfterSpaces(s[1..]);
    }
  }

  /** The inside of a marker holds no other marker. */
  lemma {:induction false} NumbersAfterList(s: string)
    requires MatchList(s).Some?
    ensures Numbers(s) == Numbers(MatchList(s).value.rest)
    decreases |s|
  {
    var after := Digits(s).1;
    NumbersAfterDigits(s);
    if after[0] != ']' {
      var comma := SkipSpaces(after);
      NumbersAfterSpaces(after);
      NumbersAfterSpaces(comma[1..]);
      NumbersAfterList(SkipSpaces(comma[1..]));
    }
  }

  /* ---- what rewriting keeps ---- */

  /** Writing a marker back adds exactly its numbers. */
  lemma WriteNumbers(parts: seq<string>, rest: string)
    requires AllNumbers(parts)
    ensures Numbers(Write(parts, rest)) == Map(PartValue, parts) + Numbers(rest)
  {
    if parts != [] {
      WriteMatches(parts, rest);
    }
  }

  /** An unmatched '[' adds numbers exactly when it reaches a closing bracket. */
  lemma BracketNumbers(rest: string)
    ensures Accepts(Opening, rest) ==> |Numbers("[" + rest)| > |Numbers(rest)|
    ensures !Accepts(Opening, rest) ==> MatchAt("[" + rest) == None && Numbers("[" + rest) == Numbers(rest)
  {
    assert ("[" + rest)[1..] == rest;
    AcceptsList(rest);
    if MatchList(rest).Some? {
      NumbersAfterList(rest);
      MatchListNumbers(rest);
    }
  }

  lemma MarkerKeeps(s: string, m: Marker, count: nat)
    requires MatchAt(s) == Some(m)
    ensures Numbers(Rewrite(s, count)) == Filter(InRange(count), Map(PartValue, m.parts)) + Numbers(Rewrite(m.rest, count))
    ensures Filter(InRange(count), Numbers(s))
         == Filter(InRange(count), Map(PartValue, m.parts)) + Filter(InRange(count), Numbers(m.rest))
  {
    KeptNumbers(s, m, count);
    WriteNumbers(Filter(Valid(count), m.parts), Rewrite(m.rest, count));
    ValuesOfValid(m.parts, count);
    FilterConcat(InRange(count), Map(PartValue, m.parts), Numbers(m.rest));
  }

  lemma SamePrefix<T>(a: seq<T>, b: seq<T>, c: seq<T>)
    ensures a + b == a + c <==> b == c
  {
    if a + b == a + c {
      assert b == (a + b)[|a|..] && c == (a + c)[|a|..];
    }
  }

  /** Rewriting never loses a valid number, and keeps exactly the valid ones, in order, if
      and only if nothing bridges. */
  lemma {:induction false} RewriteKeepsIff(s: string, count: nat)
    ensures |Numbers(Rewrite(s, count))| >= |Filter(InRange(count), Numbers(s))|
    ensures Numbers(Rewrite(s, count)) == Filter(InRange(count), Numbers(s)) <==> !Bridges(s, count)
    decreases |s|
  {
    if s != "" {
      match MatchAt(s) {
        case Some(m) =>
          RewriteKeepsIff(m.rest, count);
          MarkerKeeps(s, m, count);
          SamePrefix(Filter(InRange(count), Map(PartValue, m.parts)), Numbers(Rewrite(m.rest, count)),
                     Filter(InRange(count), Numbers(m.rest)));
        case None =>
          RewriteKeepsIff(s[1..], count);
          PlainKeeps(s, count);
      }
    }
  }

  lemma PlainKeeps(s: string, count: nat)
    requires s != "" && MatchAt(s) == None
    ensures Numbers(s) == Numbers(s[1..])
    ensures s[0] == '[' && Reaches(Opening, s[1..], count) ==> |Numbers(Rewrite(s, count))| > |Numbers(Rewrite(s[1..], count))|
    ensures !(s[0] == '[' && Reaches(Opening, s[1..], count)) ==>
              Numbers(Rewrite(s, count)) == Numbers(Rewrite(s[1..], count)) && MatchAt(Rewrite(s, count)) == None
  {
    var rest := Rewrite(s[1..], count);
    assert Rewrite(s, count) == [s[0]] + rest;
    ReachesRewritten(Opening, s[1..], count);
    if s[0] == '[' {
      assert [s[0]] + rest == "[" + rest;
      BracketNumbers(rest);
    } else {
      PlainNumbers(s[0], rest);
    }
  }

  /** Where nothing bridges, a second rewriting finds nothing to change. */
  lemma {:induction false} RewriteTwice(s: string, count: nat)
    requires !Bridges(s, count)
    ensures Rewrite(Rewrite(s, count), count) == Rewrite(s, count)
    decreases |s|
  {
    if s != "" {
      match MatchAt(s) {
        case Some(m) =>
          RewriteTwice(m.rest, count);
          KeptNumbers(s, m, count);
          var kept := Filter(Valid(count), m.parts);
          if kept != [] {
            RewriteWritten(kept, Rewrite(m.rest, count), count);
          }
        case None =>
          RewriteTwice(s[1..], count);
          PlainKeeps(s, count);
          RewritePlain(s[0], Rewrite(s[1..], count), count);
      }
    }
  }

  lemma RewriteWritten(parts: seq<string>, rest: string, count: nat)
    requires parts != [] && AllNumbers(parts) && Filter(Valid(count), parts) == parts
    ensures Rewrite(Write(parts, rest), count) == Write(parts, Rewrite(rest, count))
  {
    WriteMatches(parts, rest);
  }

  lemma RewritePlain(c: char, s: string, count: nat)
    requires MatchAt([c] + s) == None
    ensures Rewrite([c] + s, count) == [c] + Rewrite(s, count)
  {
    assert ([c] + s)[1..] == s;
  }

  /** Every marker is written plainly and cites valid numbers only. */
  ghost predicate Settled(s: string, count: nat)
    decreases |s|
  {
    if s == "" then true
    else match MatchAt(s)
      case Some(m) => Filter(Valid(count), m.parts) == m.parts && s == Write(m.parts, m.rest) && Settled(m.rest, count)
      case None => Settled(s[1..], count)
  }

  /** A settled text is left alone and cites valid numbers only. */
  lemma {:induction false} SettledIsFixed(s: string, count: nat)
    requires Settled(s, count)
    ensures Rewrite(s, count) == s
    ensures Filter(InRange(count), Numbers(s)) == Numbers(s)
    decreases |s|
  {
    if s != "" {
      match MatchAt(s) {
        case Some(m) =>
          SettledIsFixed(m.rest, count);
          FilterConcat(InRange(count), Map(PartValue, m.parts), Numbers(m.rest));
          ValuesOfValid(m.parts, count);
        case None =>
          SettledIsFixed(s[1..], count);
          assert s == [s[0]] + s[1..];
      }
    }
  }

  /* ---- trimming ---- */

  lemma {:induction false} DigitsSnoc(s: string, c: char)
    requires IsSpace(c)
    ensures Digits(s + [c]) == (Digits(s).0, Digits(s).1 + [c])
  {
    if s == "" {
      assert s + [c] == [c];
    } else if IsDigit(s[0]) {
      assert (s + [c])[1..] == s[1..] + [c];
      DigitsSnoc(s[1..], c);
    }
  }

  lemma {:induction false} SkipSpacesSnoc(s: string, c: char)
    requires IsSpace(c)
    ensures SkipSpaces(s + [c]) == if SkipSpaces(s) == "" then "" else SkipSpaces(s) + [c]
  {
    if s == "" {
      assert s + [c] == [c] && [c][1..] == "";
    } else if IsSpace(s[0]) {
      assert (s + [c])[1..] == s[1..] + [c];
      SkipSpacesSnoc(s[1..], c);
    }
  }

  function Longer(m: Option<Marker>, c: char): Option<Marker> {
    match m
    case None => None
    case Some(m) => Some(Marker(m.parts, m.rest + [c]))
  }

  /** A space at the end of the text is no part of a marker. */
  lemma {:induction false} MatchListSnoc(s: string, c: char)
    requires IsSpace(c)
    ensures MatchList(s + [c]) == Longer(MatchList(s), c)
    decreases |s|
  {
    var after := Digits(s).1;
    DigitsSnoc(s, c);
    if after == "" {
      assert after + [c] == [c] && SkipSpaces([c]) == "" by { SkipSpacesSnoc("", c); assert "" + [c] == [c]; }
    } else if after[0] == ']' {
      assert (after + [c])[1..] == after[1..] + [c];
    } else {
      ListTailSnoc(after, c);
      var comma := SkipSpaces(after);
      if comma != "" && comma[0] == ',' && SkipSpaces(comma[1..]) != "" {
        MatchListSnoc(SkipSpaces(comma[1..]), c);
      }
    }
  }

  lemma ListTailSnoc(after: string, c: char)
    requires IsSpace(c)
    ensures var comma, comma' := SkipSpaces(after), SkipSpaces(after + [c]);
            && (comma == "" <==> comma' == "")
            && (comma != "" ==>
                  && comma'[0] == comma[0]
                  && SkipSpaces(comma'[1..]) == var tail := SkipSpaces(comma[1..]); if tail == "" then "" else tail + [c])
  {
    SkipSpacesSnoc(after, c);
    var comma := SkipSpaces(after);
    if comma != "" {
      assert (comma + [c])[1..] == comma[1..] + [c];
      SkipSpacesSnoc(comma[1..], c);
    }
  }

  lemma MatchAtSnoc(s: string, c: char)
    requires IsSpace(c)
    ensures MatchAt(s + [c]) == Longer(MatchAt(s), c)
  {
    if s != "" {
      assert (s + [c])[1..] == s[1..] + [c];
      MatchListSnoc(s[1..], c);
    }
  }

  lemma {:induction false} NumbersSnoc(s: string, c: char)
    requires IsSpace(c)
    ensures Numbers(s + [c]) == Numbers(s)
    decreases |s|
  {
    MatchAtSnoc(s, c);
    if s == "" {
      assert s + [c] == [c] && [c][1..] == "";
    } else {
      match MatchAt(s) {
        case Some(m) => NumbersSnoc(m.rest, c);
        case None =>
          assert (s + [c])[1..] == s[1..] + [c];
          NumbersSnoc(s[1..], c);
      }
    }
  }

  lemma {:induction false} WriteListSnoc(parts: seq<string>, rest: string, c: char)
    requires parts != []
    ensures WriteList(parts, rest + [c]) == WriteList(parts, rest) + [c]
  {
    if |parts| > 1 {
      WriteListSnoc(parts[1..], rest, c);
    }
  }

  lemma {:induction false} RewriteSnoc(s: string, c: char, count: nat)
    requires IsSpace(c)
    ensures Rewrite(s + [c], count) == Rewrite(s, count) + [c]
    decreases |s|
  {
    MatchAtSnoc(s, c);
    if s == "" {
      assert s + [c] == [c] && [c][1..] == "";
    } else {
      match MatchAt(s) {
        case Some(m) =>
          RewriteSnoc(m.rest, c, count);
          var kept := Filter(Valid(count), m.parts);
          if kept != [] {
            WriteListSnoc(kept, Rewrite(m.rest, count), c);
          }
        case None =>
          assert (s + [c])[1..] == s[1..] + [c];
          RewriteSnoc(s[1..], c, count);
      }
    }
  }

  lemma {:induction false} TrimRightKeeps(s: string, count: nat)
    ensures Numbers(TrimRight(s)) == Numbers(s)
    ensures Rewrite(s, count) == s ==> Rewrite(TrimRight(s), count) == TrimRight(s)
  {
    if s != "" && IsSpace(Last(s)) {
      assert s == Init(s) + [Last(s)];
      NumbersSnoc(Init(s), Last(s));
      RewriteSnoc(Init(s), Last(s), count);
      if Rewrite(s, count) == s {
        assert Init(Rewrite(Init(s), count) + [Last(s)]) == Rewrite(Init(s), count);
      }
      TrimRightKeeps(Init(s), count);
    }
  }

  lemma {:induction false} SkipSpacesKeeps(s: string, count: nat)
    ensures Numbers(SkipSpaces(s)) == Numbers(s)
    ensures Rewrite(s, count) == s ==> Rewrite(SkipSpaces(s), count) == SkipSpaces(s)
  {
    NumbersAfterSpaces(s);
    if s != "" && IsSpace(s[0]) {
      if Rewrite(s, count) == s {
        assert ([s[0]] + Rewrite(s[1..], count))[1..] == Rewrite(s[1..], count);
      }
      SkipSpacesKeeps(s[1..], count);
    }
  }

  lemma {:induction false} TrimRightPrefix(s: string)
    ensures TrimRight(s) == "" || (!IsSpace(Last(TrimRight(s))) && TrimRight(s)[0] == s[0])
    ensures |TrimRight(s)| <= |s|
  {
    if s != "" && IsSpace(Last(s)) {
      TrimRightPrefix(Init(s));
    }
  }

  lemma TrimTwice(s: string)
    ensures Trim(Trim(s)) == Trim(s)
  {
    SkipSpacesStarts(s);
    TrimRightPrefix(SkipSpaces(s));
  }

  /* ---- what the API relies on ---- */

  lemma TrimKeeps(s: string, count: nat)
    ensures Numbers(Trim(s)) == Numbers(s)
    ensures Rewrite(s, count) == s ==> StripInvalid(Trim(s), count) == Trim(s)
  {
    SkipSpacesKeeps(s, count);
    TrimRightKeeps(SkipSpaces(s), count);
    TrimTwice(s);
  }

  /** Stripping loses no valid number. It leaves exactly the valid numbers, in order, if and
      only if nothing bridges; then the cited list is preserved and stripping is idempotent. */
  lemma StripCorrect(answer: string, count: nat)
    ensures |Numbers(StripInvalid(answer, count))| >= |Filter(InRange(count), Numbers(answer))|
    ensures Numbers(StripInvalid(answer, count)) == Filter(InRange(count), Numbers(answer)) <==> !Bridges(answer, count)
    ensures !Bridges(answer, count) ==>
              && (forall n :: n in Numbers(StripInvalid(answer, count)) ==> 1 <= n <= count)
              && Cited(StripInvalid(answer, count), count) == Cited(answer, count)
              && StripInvalid(StripInvalid(answer, count), count) == StripInvalid(answer, count)
  {
    var r := Rewrite(answer, count);
    RewriteKeepsIff(answer, count);
    TrimKeeps(r, count);
    if !Bridges(answer, count) {
      RewriteTwice(answer, count);
      FilterMember(InRange(count), Numbers(answer));
      assert Filter(InRange(count), Filter(InRange(count), Numbers(answer))) == Filter(InRange(count), Numbers(answer)) by {
        FilterAbsorb(InRange(count), InRange(count), Numbers(answer));
      }
    }
  }

  lemma OneDigit(c: char)
    requires IsDigit(c)
    ensures AllDigits([c]) && PartValue([c]) == c as int - '0' as int
  {
    assert Init([c]) == "" && Last([c]) == c;
    assert Value([c]) == Value("") * 10 + (c as int - '0' as int);
  }

  /** The nested answer "[[9]1]" is why the condition is there: dropping [9] creates [1]. */
  lemma NestedMarkerEscapes()
    ensures Cited("[[9]1]", 1) == []
    ensures StripInvalid("[[9]1]", 1) == "[1]" && Cited("[1]", 1) == [1]
  {
    NestedParts();
    NestedWhole("[9]1]", "1]");
    assert ['['] + "[9]1]" == "[[9]1]" && ['['] + "1]" == "[1]";
    TrimPlain("[1]");
    assert Init([9]) == [] && Filter(InRange(1), [9]) == [];
    assert Init([1]) == [] && Filter(InRange(1), [1]) == [1];
  }

  /** So it bridges. */
  lemma NestedBridges()
    ensures Bridges("[[9]1]", 1)
  {
    NestedMarkerEscapes();
    StripCorrect("[[9]1]", 1);
  }

  /** An opening bracket before a marker is plain text. */
  lemma NestedWhole(t: string, r: string)
    requires t != "" && t[0] == '[' && Rewrite(t, 1) == r
    ensures Numbers(['['] + t) == Numbers(t) && Rewrite(['['] + t, 1) == ['['] + r
  {
    var s := ['['] + t;
    assert s[1..] == t;
    assert Digits(t).0 == "";
    assert MatchAt(s) == None;
  }

  lemma TrimPlain(s: string)
    requires s != "" && !IsSpace(s[0]) && !IsSpace(Last(s))
    ensures Trim(s) == s
  {
  }

  lemma NestedParts()
    ensures Numbers("[9]1]") == [9] && Rewrite("[9]1]", 1) == "1]"
    ensures Numbers("[1]") == [1]
  {
    OneDigit('9');
    OneDigit('1');
    PlainTail();
    OneMarker("9", "1]", "[9]1]");
    OneMarker("1", "", "[1]");
    assert Init(["9"]) == [] && Filter(Valid(1), ["9"]) == [];
  }

  lemma OneMarker(part: string, rest: string, s: string)
    requires AllDigits(part) && s == "[" + (part + ("]" + rest))
    ensures Numbers(s) == [PartValue(part)] + Numbers(rest)
    ensures Rewrite(s, 1) == Write(Filter(Valid(1), [part]), Rewrite(rest, 1))
  {
    assert MatchAt(s) == Some(Marker([part], rest)) by {
      assert s[1..] == part + ("]" + rest);
      MatchClose(part, rest);
    }
    assert Map(PartValue, [part]) == [PartValue(part)];
  }

  lemma PlainTail()
    ensures Numbers("1]") == [] && Rewrite("1]", 1) == "1]"
  {
    var r := "1]";
    assert r[1..] == "]" && "]"[1..] == "";
    assert Numbers("]") == [] && Rewrite("]", 1) == "]";
  }

  /* ---- what a written citation denotes ---- */

  function Digit(d: nat): char
    requires d < 10
  {
    ('0' as int + d) as char
  }

  /** A number as it is written. */
  function Decimal(n: nat): string {
    if n < 10 then [Digit(n)] else Decimal(n / 10) + [Digit(n % 10)]
  }

  /** Reading a written number gives the number back. */
  lemma {:induction false} DecimalRoundTrip(n: nat)
    ensures AllDigits(Decimal(n)) && PartValue(Decimal(n)) == n
  {
    var d := Digit(n % 10);
    if n < 10 {
      OneDigit(d);
    } else {
      DecimalRoundTrip(n / 10);
      ValueSnoc(Decimal(n / 10), d);
    }
  }

  lemma ValueSnoc(s: string, c: char)
    requires AllDigits(s) && IsDigit(c)
    ensures AllDigits(s + [c]) && Value(s + [c]) == Value(s) * 10 + (c as int - '0' as int)
  {
    assert Init(s + [c]) == s && Last(s + [c]) == c;
  }

  /** Leading zeros do not matter. */
  lemma {:induction false} LeadingZero(s: string)
    requires AllDigits(s)
    ensures AllDigits(['0'] + s) && PartValue(['0'] + s) == PartValue(s)
  {
    var c := Last(s);
    assert s == Init(s) + [c] && ['0'] + s == (['0'] + Init(s)) + [c];
    if |s| == 1 {
      OneDigit('0');
      OneDigit(c);
      ValueSnoc(['0'], c);
    } else {
      LeadingZero(Init(s));
      ValueSnoc(['0'] + Init(s), c);
    }
  }

  function Marked(n: nat): string { "[" + (Decimal(n) + ("]" + "")) }

  /** The answer "[n]" cites n, and source n exactly when there is one. */
  lemma CitesOne(n: nat, count: nat)
    ensures Numbers(Marked(n)) == [n] && !Bridges(Marked(n), count)
    ensures Cited(Marked(n), count) == if 1 <= n <= count then [n] else []
  {
    DecimalRoundTrip(n);
    MarkerAlone(Decimal(n), "", Marked(n));
    CleanDoesNotBridge(Marked(n), count);
    CitedNext([], n, count);
    assert [] + [n] == [n];
  }

  lemma MarkerAlone(part: string, rest: string, s: string)
    requires AllDigits(part) && s == "[" + (part + ("]" + rest))
    ensures MatchAt(s) == Some(Marker([part], rest)) && (Clean(rest) ==> Clean(s))
    ensures Numbers(s) == [PartValue(part)] + Numbers(rest)
  {
    assert s[1..] == part + ("]" + rest);
    MatchClose(part, rest);
    assert Map(PartValue, [part]) == [PartValue(part)];
  }

  /** A citation counts wherever it stands in the text. */
  lemma {:induction false} CitesInText(before: string, n: nat, after: string)
    requires '[' !in before
    ensures Numbers(before + ("[" + (Decimal(n) + ("]" + after)))) == [n] + Numbers(after)
  {
    var marked := "[" + (Decimal(n) + ("]" + after));
    if before == "" {
      DecimalRoundTrip(n);
      MarkerAlone(Decimal(n), after, marked);
      assert before + marked == marked;
    } else {
      assert before + marked == [before[0]] + (before[1..] + marked);
      CitesInText(before[1..], n, after);
      PlainNumbers(before[0], before[1..] + marked);
    }
  }

  predicate AllSpaces(s: string) { forall i :: 0 <= i < |s| ==> IsSpace(s[i]) }

  lemma {:induction false} SkipAll(spaces: string, s: string)
    requires AllSpaces(spaces) && (s == "" || !IsSpace(s[0]))
    ensures SkipSpaces(spaces + s) == s
  {
    if spaces == "" {
      assert spaces + s == s;
    } else {
      assert (spaces + s)[1..] == spaces[1..] + s;
      SkipAll(spaces[1..], s);
    }
  }

  /** A list as it may be written: spaces before and after every comma. */
  function Spelled(parts: seq<string>, gaps: seq<(string, string)>, rest: string): string
    requires parts != [] && |gaps| == |parts| - 1
  {
    parts[0] + if |parts| == 1 then "]" + rest
               else gaps[0].0 + ("," + (gaps[0].1 + Spelled(parts[1..], gaps[1..], rest)))
  }

  /** Spaces around commas make no difference to what a marker cites. */
  lemma {:induction false} SpelledMatches(parts: seq<string>, gaps: seq<(string, string)>, rest: string)
    requires parts != [] && |gaps| == |parts| - 1 && AllNumbers(parts)
    requires forall i :: 0 <= i < |gaps| ==> AllSpaces(gaps[i].0) && AllSpaces(gaps[i].1)
    ensures MatchList(Spelled(parts, gaps, rest)) == Some(Marker(parts, rest))
    ensures Spelled(parts, gaps, rest) != "" && IsDigit(Spelled(parts, gaps, rest)[0])
  {
    var p := parts[0];
    assert AllDigits(p);
    if |parts| == 1 {
      MatchClose(p, rest);
      assert parts == [p];
    } else {
      SpelledMatches(parts[1..], gaps[1..], rest);
      MatchSpacedComma(p, gaps[0].0, gaps[0].1, Spelled(parts[1..], gaps[1..], rest));
      assert parts == [p] + parts[1..];
    }
  }

  lemma MatchSpacedComma(p: string, a: string, b: string, tail: string)
    requires AllDigits(p) && AllSpaces(a) && AllSpaces(b) && tail != "" && IsDigit(tail[0]) && MatchList(tail).Some?
    ensures MatchList(p + (a + ("," + (b + tail))))
         == Some(Marker([p] + MatchList(tail).value.parts, MatchList(tail).value.rest))
  {
    var comma := "," + (b + tail);
    var after := a + comma;
    assert comma[0] == ',' && comma[1..] == b + tail;
    assert after[0] == if a == "" then ',' else a[0];
    DigitsExact(p, after);
    SkipAll(a, comma);
    SkipAll(b, tail);
  }

  lemma {:induction false} SkippedSpaces(s: string)
    ensures var k := |s| - |SkipSpaces(s)|;
            s[k..] == SkipSpaces(s) && forall i :: 0 <= i < k ==> IsSpace(s[i])
  {
    if s != "" && IsSpace(s[0]) {
      SkippedSpaces(s[1..]);
      var k := |s| - |SkipSpaces(s)|;
      assert s[1..][k - 1..] == s[k..];
      forall i | 0 <= i < k ensures IsSpace(s[i]) {
        assert i > 0 ==> s[i] == s[1..][i - 1];
      }
    }
  }

  lemma {:induction false} TrimmedSpaces(s: string)
    ensures var k := |TrimRight(s)|;
            k <= |s| && s[..k] == TrimRight(s) && forall i :: k <= i < |s| ==> IsSpace(s[i])
  {
    if s != "" && IsSpace(Last(s)) {
      TrimmedSpaces(Init(s));
    }
  }

  /** Trimming removes exactly the white space at both ends. */
  lemma TrimRemovesSpaces(s: string)
    ensures exists i, j :: 0 <= i <= j <= |s| && Trim(s) == s[i..j] && AllSpaces(s[..i]) && AllSpaces(s[j..])
    ensures Trim(s) != "" ==> !IsSpace(Trim(s)[0]) && !IsSpace(Last(Trim(s)))
  {
    var t := SkipSpaces(s);
    SkippedSpaces(s);
    TrimmedSpaces(t);
    var i := |s| - |t|;
    var j := i + |TrimRight(t)|;
    assert Trim(s) == s[i..j];
    assert AllSpaces(s[..i]);
    forall k | 0 <= k < |s[j..]| ensures IsSpace(s[j..][k]) {
      assert s[j..][k] == t[j - i + k];
    }
    SkipSpacesStarts(s);
    TrimRightPrefix(t);
  }

  const ABSTENTION := "I do not have enough evidence in the indexed documents to answer that."

  /** The citation steps of _answer for a non-empty list of evidence. Every citation points
      at real evidence for every answer; where nothing bridges, exactly the valid citations of the
      model's text are kept. Without a citation the answer is the abstention. */
  method AlignCitations<Chunk>(text: string, evidence: seq<Chunk>)
    returns (answer: string, used: seq<nat>, citations: seq<Chunk>, grounded: bool)
    ensures Distinct(used) && |citations| == |used|
    ensures forall i :: 0 <= i < |used| ==> 1 <= used[i] <= |evidence| && citations[i] == evidence[used[i] - 1]
    ensures grounded <==> citations != []
    ensures answer == if grounded then StripInvalid(text, |evidence|) else ABSTENTION
    ensures !Bridges(text, |evidence|) ==> used == Cited(text, |evidence|)
    ensures !Bridges(text, |evidence|) ==> (grounded <==> exists n :: n in Numbers(text) && 1 <= n <= |evidence|)
  {
    var candidate := StripInvalid(text, |evidence|);
    used := CitedSources(candidate, |evidence|);
    answer := if used != [] then candidate else ABSTENTION;
    citations := [];
    assert forall j :: 0 <= j < |used| ==> used[j] in used;
    var i := 0;
    while i < |used|
      invariant 0 <= i <= |used| && |citations| == i
      invariant forall j :: 0 <= j < |used| ==> 1 <= used[j] <= |evidence|
      invariant forall j :: 0 <= j < i ==> citations[j] == evidence[used[j] - 1]
    {
      citations := citations + [evidence[used[i] - 1]];
      i := i + 1;
    }
    grounded := used != [];
    if !Bridges(text, |evidence|) {
      StripCorrect(text, |evidence|);
      CitedSome(text, |evidence|);
    }
  }

  lemma CitedSome(text: string, count: nat)
    ensures Cited(text, count) != [] <==> exists n :: n in Numbers(text) && 1 <= n <= count
  {
    FilterMember(InRange(count), Numbers(text));
    FirstOccurrencesMember(Filter(InRange(count), Numbers(text)));
    if n :| n in Numbers(text) && 1 <= n <= count {
      assert n in Cited(text, count);
    }
    if Cited(text, count) != [] {
      var n := Cited(text, count)[0];
      assert n in Cited(text, count);
      assert n in Filter(InRange(count), Numbers(text));
    }
  }

  /** For instance, the answer "[n]" yields exactly source n, or no citation when there is none. */
  method AlignOne<Chunk>(n: nat, evidence: seq<Chunk>) returns (citations: seq<Chunk>, grounded: bool)
    ensures grounded <==> 1 <= n <= |evidence|
    ensures citations == if 1 <= n <= |evidence| then [evidence[n - 1]] else []
  {
    var text := Marked(n);
    assert !Bridges(text, |evidence|) && Cited(text, |evidence|) == (if 1 <= n <= |evidence| then [n] else []) by {
      CitesOne(n, |evidence|);
    }
    var answer, used;
    answer, used, citations, grounded := AlignCitations(text, evidence);
    assert used == Cited(text, |evidence|);
  }
}
