/**
 * The textual ID of a structural variant call,
 * "call" name ':' start ['-' end] ('f' | 'b') and, for a breakpoint, the same
 * again for the partner breakend, together with a decoder that reads the
 * locations back out of an ID.
 */
module CallId {
  import opened Wrappers
  import opened JavaText
  import opened Evidence

  function DirectionChar(d: Direction): char {
    if d == Forward then 'f' else 'b'
  }

  /** The "-end" part, present only when the interval is wider than one position. */
  function EndText(start: int, end: int): string {
    if end != start then "-" + ShowInt(end) else ""
  }

  /** One breakend: contig name, ':', start, the optional end and the direction. */
  function BreakendText(name: string, start: int, end: int, direction: Direction): string {
    name + (":" + (ShowInt(start) + (EndText(start, end) + [DirectionChar(direction)])))
  }

  /** getID, with the sequence dictionary's contig names given as a function of the contig index. */
  function GetId(call: BreakendSummary, dictionary: int -> string): string {
    "call"
    + (BreakendText(dictionary(call.referenceIndex), call.start, call.end, call.direction)
       + (if call.BreakpointSummary?
          then BreakendText(dictionary(call.referenceIndex2), call.start2, call.end2, call.direction2)
          else ""))
  }

  /** What an ID says about one breakend. */
  datatype Location = Location(name: string, start: int, end: int, direction: Direction)

  /** The locations a call's ID names: the breakend, then the partner breakend of a breakpoint. */
  function LocationsOf(call: BreakendSummary, dictionary: int -> string): seq<Location> {
    [Location(dictionary(call.referenceIndex), call.start, call.end, call.direction)]
    + (if call.BreakpointSummary?
       then [Location(dictionary(call.referenceIndex2), call.start2, call.end2, call.direction2)]
       else [])
  }

  // ---------------------------------------------------------------------------
  // Decoding
  // ---------------------------------------------------------------------------

  /** The length of the run of digits s starts with. */
  function DigitRun(s: string): (n: nat)
    ensures n <= |s| && AllDigits(s[..n])
    ensures n < |s| ==> !IsDigit(s[n])
  {
    if |s| > 0 && IsDigit(s[0]) then
      var n := 1 + DigitRun(s[1..]);
      assert s[..n] == [s[0]] + s[1..][..n - 1];
      n
    else 0
  }

  /** An optional '-' and a run of digits at the front of s, and what follows them. */
  function TakeInt(s: string): Option<(int, string)> {
    if |s| > 0 && s[0] == '-' then
      match TakeNat(s[1..])
      case None => None
      case Some((v, after)) => Some((0 - v, after))
    else TakeNat(s)
  }

  /** A run of digits at the front of s, and what follows it. */
  function TakeNat(s: string): Option<(int, string)> {
    var n := DigitRun(s);
    if n == 0 then None else Some((DigitsValue(s[..n]), s[n..]))
  }

  /** The index of the first ':' in s, or |s| when there is none. */
  function ColonIndex(s: string): (n: nat)
    ensures n <= |s|
    ensures forall i :: 0 <= i < n ==> s[i] != ':'
    ensures n < |s| ==> s[n] == ':'
  {
    if |s| == 0 then 0
    else if s[0] == ':' then 0
    else 1 + ColonIndex(s[1..])
  }

  function DirectionOf(c: char): Option<Direction> {
    if c == 'f' then Some(Forward) else if c == 'b' then Some(Backward) else None
  }

  /** The end and the text after it: "-end" when present, else the start again. */
  function TakeEnd(start: int, s: string): Option<(int, string)> {
    if |s| > 0 && s[0] == '-' then TakeInt(s[1..]) else Some((start, s))
  }

  /** Read one breakend from the front of s. */
  function DecodeLocation(s: string): Option<(Location, string)> {
    var c := ColonIndex(s);
    if c == |s| then None
    else
      match TakeInt(s[c + 1..])
      case None => None
      case Some((start, afterStart)) =>
        match TakeEnd(start, afterStart)
        case None => None
        case Some((end, afterEnd)) =>
          if |afterEnd| == 0 then None
          else
            match DirectionOf(afterEnd[0])
            case None => None
            case Some(direction) => Some((Location(s[..c], start, end, direction), afterEnd[1..]))
  }

  /** Read the one or two breakends of an ID. */
  function DecodeId(s: string): Option<seq<Location>> {
    if |s| < 4 || s[..4] != "call" then None
    else
      match DecodeLocation(s[4..])
      case None => None
      case Some((first, rest)) =>
        if |rest| == 0 then Some([first])
        else
          match DecodeLocation(rest)
          case Some((second, rest2)) => if |rest2| == 0 then Some([first, second]) else None
          case None => None
  }

  lemma {:induction false} DigitRunOf(d: string, rest: string)
    requires AllDigits(d)
    requires |rest| == 0 || !IsDigit(rest[0])
    ensures DigitRun(d + rest) == |d|
  {
    if |d| > 0 {
      assert (d + rest)[1..] == d[1..] + rest;
      DigitRunOf(d[1..], rest);
    }
  }

  /** A digit string followed by a non-digit reads back as the string's value. */
  lemma TakeDigits(d: string, rest: string)
    requires |d| > 0 && AllDigits(d)
    requires |rest| == 0 || !IsDigit(rest[0])
    ensures TakeNat(d + rest) == Some((DigitsValue(d), rest))
  {
    var s := d + rest;
    DigitRunOf(d, rest);
    assert s[..|d|] == d;
    assert s[|d|..] == rest;
  }

  lemma SplitFirst(c: char, d: string, rest: string)
    ensures (([c] + d) + rest)[0] == c && (([c] + d) + rest)[1..] == d + rest
  {
  }

  lemma TakeShowNegative(n: int, rest: string)
    requires n < 0
    requires |rest| == 0 || !IsDigit(rest[0])
    ensures TakeInt(ShowInt(n) + rest) == Some((n, rest))
  {
    var d := ShowNat(-n);
    TakeDigits(d, rest);
    assert ShowInt(n) == ['-'] + d;
    SplitFirst('-', d, rest);
    ShowNatValue(-n);
  }

  lemma TakeShowNonNegative(n: int, rest: string)
    requires n >= 0
    requires |rest| == 0 || !IsDigit(rest[0])
    ensures TakeInt(ShowInt(n) + rest) == Some((n, rest))
  {
    var d := ShowNat(n);
    TakeDigits(d, rest);
    assert (d + rest)[0] == d[0];
    ShowNatValue(n);
  }

  /** The printed form of n, followed by text that does not start with a digit, reads back as n. */
  lemma TakeShowInt(n: int, rest: string)
    requires |rest| == 0 || !IsDigit(rest[0])
    ensures TakeInt(ShowInt(n) + rest) == Some((n, rest))
  {
    if n < 0 {
      TakeShowNegative(n, rest);
    } else {
      TakeShowNonNegative(n, rest);
    }
  }

  lemma {:induction false} ColonIndexOf(name: string, rest: string)
    requires forall i :: 0 <= i < |name| ==> name[i] != ':'
    ensures ColonIndex(name + ":" + rest) == |name|
  {
    if |name| > 0 {
      assert (name + ":" + rest)[1..] == name[1..] + ":" + rest;
      ColonIndexOf(name[1..], rest);
    }
  }

  lemma TakeDashEnd(start: int, end: int, after: string)
    requires end != start
    requires |after| > 0 && !IsDigit(after[0]) && after[0] != '-'
    ensures TakeEnd(start, EndText(start, end) + after) == Some((end, after))
  {
    var s := "-" + (ShowInt(end) + after);
    assert EndText(start, end) + after == s;
    assert s[1..] == ShowInt(end) + after;
    TakeShowInt(end, after);
  }

  /** The optional "-end" reads back as the end, and as the start when absent. */
  lemma TakeEndText(start: int, end: int, after: string)
    requires |after| > 0 && !IsDigit(after[0]) && after[0] != '-'
    ensures TakeEnd(start, EndText(start, end) + after) == Some((end, after))
  {
    if end != start {
      TakeDashEnd(start, end, after);
    } else {
      assert EndText(start, end) + after == after;
    }
  }

  /** The text after the colon reads back as start, end and direction. */
  lemma DecodeAfterColon(start: int, end: int, direction: Direction, rest: string)
    ensures var text := ShowInt(start) + (EndText(start, end) + ([DirectionChar(direction)] + rest));
      && TakeInt(text) == Some((start, EndText(start, end) + ([DirectionChar(direction)] + rest)))
      && TakeEnd(start, EndText(start, end) + ([DirectionChar(direction)] + rest)) == Some((end, [DirectionChar(direction)] + rest))
  {
    var after := [DirectionChar(direction)] + rest;
    var afterStart := EndText(start, end) + after;
    assert after[0] == DirectionChar(direction);
    if end != start {
      assert afterStart[0] == '-';
    } else {
      assert afterStart == after;
    }
    TakeShowInt(start, afterStart);
    TakeEndText(start, end, after);
  }

  lemma Regroup(name: string, a: string, b: string, c: string, rest: string)
    ensures (name + (":" + (a + (b + c)))) + rest == name + ":" + (a + (b + (c + rest)))
  {
  }

  /** DecodeLocation, step by step: the name up to the colon, the start, the end, the direction. */
  lemma DecodeLocationSteps(s: string, name: string, text: string, start: int, afterStart: string,
                            end: int, after: string, direction: Direction)
    requires s == name + ":" + text
    requires forall i :: 0 <= i < |name| ==> name[i] != ':'
    requires TakeInt(text) == Some((start, afterStart))
    requires TakeEnd(start, afterStart) == Some((end, after))
    requires |after| > 0 && DirectionOf(after[0]) == Some(direction)
    ensures DecodeLocation(s) == Some((Location(name, start, end, direction), after[1..]))
  {
    ColonIndexOf(name, text);
    assert s[|name| + 1..] == text;
    assert s[..|name|] == name;
  }

  /** One breakend's text, followed by anything, decodes to its location and leaves the rest. */
  lemma DecodeBreakendText(name: string, start: int, end: int, direction: Direction, rest: string)
    requires forall i :: 0 <= i < |name| ==> name[i] != ':'
    ensures DecodeLocation(BreakendText(name, start, end, direction) + rest)
         == Some((Location(name, start, end, direction), rest))
  {
    var after := [DirectionChar(direction)] + rest;
    var afterStart := EndText(start, end) + after;
    var text := ShowInt(start) + afterStart;
    Regroup(name, ShowInt(start), EndText(start, end), [DirectionChar(direction)], rest);
    DecodeAfterColon(start, end, direction, rest);
    assert DirectionOf(after[0]) == Some(direction);
    assert after[1..] == rest;
    DecodeLocationSteps(BreakendText(name, start, end, direction) + rest, name, text, start, afterStart, end, after, direction);
  }

  lemma DecodeBreakendTextAlone(name: string, start: int, end: int, direction: Direction)
    requires forall i :: 0 <= i < |name| ==> name[i] != ':'
    ensures DecodeLocation(BreakendText(name, start, end, direction)) == Some((Location(name, start, end, direction), ""))
  {
    var text := BreakendText(name, start, end, direction);
    assert text + "" == text;
    DecodeBreakendText(name, start, end, direction, "");
  }

  lemma DecodeIdOne(s: string, l1: Location)
    requires |s| >= 4 && s[..4] == "call"
    requires DecodeLocation(s[4..]) == Some((l1, ""))
    ensures DecodeId(s) == Some([l1])
  {
  }

  lemma DecodeIdTwo(s: string, l1: Location, second: string, l2: Location)
    requires |s| >= 4 && s[..4] == "call"
    requires DecodeLocation(s[4..]) == Some((l1, second)) && |second| > 0
    requires DecodeLocation(second) == Some((l2, ""))
    ensures DecodeId(s) == Some([l1, l2])
  {
  }

  /** The ID of a single breakend decodes to its one location. */
  lemma DecodeBreakendId(id: string, name: string, start: int, end: int, direction: Direction)
    requires id == "call" + BreakendText(name, start, end, direction)
    requires forall i :: 0 <= i < |name| ==> name[i] != ':'
    ensures DecodeId(id) == Some([Location(name, start, end, direction)])
  {
    assert id[..4] == "call" && id[4..] == BreakendText(name, start, end, direction);
    DecodeBreakendTextAlone(name, start, end, direction);
    DecodeIdOne(id, Location(name, start, end, direction));
  }

  /** The ID of a breakpoint decodes to its two locations. */
  lemma DecodeBreakpointId(id: string, first: Location, second: Location)
    requires id == "call" + (BreakendText(first.name, first.start, first.end, first.direction)
                             + BreakendText(second.name, second.start, second.end, second.direction))
    requires forall i :: 0 <= i < |first.name| ==> first.name[i] != ':'
    requires forall i :: 0 <= i < |second.name| ==> second.name[i] != ':'
    ensures DecodeId(id) == Some([first, second])
  {
    var text2 := BreakendText(second.name, second.start, second.end, second.direction);
    assert id[..4] == "call";
    assert id[4..] == BreakendText(first.name, first.start, first.end, first.direction) + text2;
    DecodeBreakendText(first.name, first.start, first.end, first.direction, text2);
    DecodeBreakendTextAlone(second.name, second.start, second.end, second.direction);
    DecodeIdTwo(id, first, text2, second);
  }

  /** An ID decodes back to the locations it was built from, when no contig name contains ':'. */
  lemma DecodeGetId(call: BreakendSummary, dictionary: int -> string)
    requires forall i :: 0 <= i < |dictionary(call.referenceIndex)| ==> dictionary(call.referenceIndex)[i] != ':'
    requires call.BreakpointSummary? ==>
      forall i :: 0 <= i < |dictionary(call.referenceIndex2)| ==> dictionary(call.referenceIndex2)[i] != ':'
    ensures DecodeId(GetId(call, dictionary)) == Some(LocationsOf(call, dictionary))
  {
    var first := Location(dictionary(call.referenceIndex), call.start, call.end, call.direction);
    var text1 := BreakendText(first.name, first.start, first.end, first.direction);
    if call.BreakpointSummary? {
      var second := Location(dictionary(call.referenceIndex2), call.start2, call.end2, call.direction2);
      var text2 := BreakendText(second.name, second.start, second.end, second.direction);
      assert GetId(call, dictionary) == "call" + (text1 + text2);
      DecodeBreakpointId(GetId(call, dictionary), first, second);
      assert LocationsOf(call, dictionary) == [first, second];
      assert DecodeId(GetId(call, dictionary)) == Some([first, second]);
    } else {
      assert GetId(call, dictionary) == "call" + (text1 + "");
      assert text1 + "" == text1;
      DecodeBreakendId(GetId(call, dictionary), first.name, call.start, call.end, call.direction);
      assert LocationsOf(call, dictionary) == [first];
      assert DecodeId(GetId(call, dictionary)) == Some([first]);
    }
  }

  /** Calls with the same ID name the same locations, when no contig name contains ':'. */
  lemma GetIdInjective(a: BreakendSummary, b: BreakendSummary, dictionary: int -> string)
    requires forall i :: 0 <= i < |dictionary(a.referenceIndex)| ==> dictionary(a.referenceIndex)[i] != ':'
    requires a.BreakpointSummary? ==>
      forall i :: 0 <= i < |dictionary(a.referenceIndex2)| ==> dictionary(a.referenceIndex2)[i] != ':'
    requires forall i :: 0 <= i < |dictionary(b.referenceIndex)| ==> dictionary(b.referenceIndex)[i] != ':'
    requires b.BreakpointSummary? ==>
      forall i :: 0 <= i < |dictionary(b.referenceIndex2)| ==> dictionary(b.referenceIndex2)[i] != ':'
    requires GetId(a, dictionary) == GetId(b, dictionary)
    ensures LocationsOf(a, dictionary) == LocationsOf(b, dictionary)
  {
    DecodeGetId(a, dictionary);
    DecodeGetId(b, dictionary);
  }
}
