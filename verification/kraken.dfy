/**
 * KrakenClassification: one line of Kraken 2 classification output, split on
 * tabs into the C/U flag, the sequence id, the taxonomy id, the sequence
 * length(s) "a" or "a|b", and the space-separated k-mer hit list in which the
 * token "|:|" separates the two reads of a pair.
 */
module Kraken {
  import opened Wrappers
  import opened JavaText

  /**
   * One entry of the k-mer hit list. The token's own parsing
   * (ReadOneKrakenKmerClassification / ReadTwoKrakenKmerClassification) is not
   * part of this model, so the token text is kept as it is.
   */
  datatype KmerHit = ReadOne(token: string) | ReadTwo(token: string)

  datatype KrakenClassification = KrakenClassification(
    line: string,
    isClassified: bool,
    sequenceId: string,
    taxonomyId: int,
    sequenceLength: int,
    sequenceLength2: int,
    kmerTaxonomyIds: seq<KmerHit>)

  /** The exceptions the constructor can raise. */
  datatype ParseError =
    | ArrayIndexOutOfBounds       // a field or piece the code indexes is missing
    | NumberFormat(text: string)  // Integer.parseInt rejected the text

  const FieldSeparator: string := "\t"
  const LengthSeparator: string := "|"
  const ReadSeparator: string := "|:|"
  const TokenSeparator: string := " "

  /** toKrakenOutput: the line the classification was built from. */
  function ToKrakenOutput(c: KrakenClassification): string {
    c.line
  }

  /** The non-empty tokens, in order: each kept as often as it occurs, the empty one dropped. */
  function NonEmpty(tokens: seq<string>): (r: seq<string>)
    ensures forall i :: 0 <= i < |r| ==> r[i] != ""
  {
    if |tokens| == 0 then []
    else (if tokens[0] == "" then [] else [tokens[0]]) + NonEmpty(tokens[1..])
  }

  /** NonEmpty keeps every non-empty token as often as it occurs, and the empty one never. */
  lemma {:induction false} NonEmptyCounts(tokens: seq<string>)
    ensures forall t :: multiset(NonEmpty(tokens))[t] == if t == "" then 0 else multiset(tokens)[t]
  {
    if |tokens| > 0 {
      NonEmptyCounts(tokens[1..]);
      assert tokens == [tokens[0]] + tokens[1..];
    }
  }

  /** The read-one entries: every non-empty token, in order. */
  function ReadOneHits(tokens: seq<string>): (r: seq<KmerHit>)
    ensures r == AllReadOne(NonEmpty(tokens))
    ensures |r| <= |tokens|
    ensures forall i :: 0 <= i < |r| ==> r[i].ReadOne? && r[i].token != "" && r[i].token in tokens
    ensures forall t :: t in tokens && t != "" ==> ReadOne(t) in r
  {
    if |tokens| == 0 then []
    else if tokens[0] == "" then ReadOneHits(tokens[1..])
    else [ReadOne(tokens[0])] + ReadOneHits(tokens[1..])
  }

  /** The read-two entries: every token, empty or not, in order. */
  function ReadTwoHits(tokens: seq<string>): (r: seq<KmerHit>)
    ensures |r| == |tokens|
    ensures forall i :: 0 <= i < |r| ==> r[i] == ReadTwo(tokens[i])
  {
    if |tokens| == 0 then [] else [ReadTwo(tokens[0])] + ReadTwoHits(tokens[1..])
  }

  /**
   * parseKmerClassifications: the text before the first "|:|" gives the read-one
   * entries, the text between the first and a second "|:|" (when non-empty) the
   * read-two entries; a field made only of separators has no first piece.
   */
  function ParseKmerClassifications(str: string): (r: Result<seq<KmerHit>, ParseError>)
    ensures r.Failure? <==> |JavaSplit(str, ReadSeparator)| == 0
    ensures r.Success? ==> forall i, j :: 0 <= i < j < |r.value| && r.value[j].ReadOne? ==> r.value[i].ReadOne?
    ensures r.Success? ==> forall i :: 0 <= i < |r.value| && r.value[i].ReadOne? ==> r.value[i].token != ""
    ensures r.Success? ==> forall i, k :: 0 <= i < |r.value| && 0 <= k < |r.value[i].token| ==> r.value[i].token[k] != ' '
  {
    var readSplit := JavaSplit(str, ReadSeparator);
    if |readSplit| == 0 then Failure(ArrayIndexOutOfBounds)
    else
      var first := JavaSplit(readSplit[0], TokenSeparator);
      TokensLackBlank(readSplit[0]);
      var one := ReadOneHits(first);
      if |readSplit| >= 2 && readSplit[1] != "" then
        var second := JavaSplit(readSplit[1], TokenSeparator);
        TokensLackBlank(readSplit[1]);
        var two := ReadTwoHits(second);
        HitsShape(one, two, first, second);
        Success(one + two)
      else
        HitsShape(one, [], first, []);
        assert one + [] == one;
        Success(one)
  }

  /**
   * Read-one entries of non-empty tokens followed by read-two entries, all
   * drawn from blank-free tokens, have the shape parseKmerClassifications
   * promises.
   */
  lemma HitsShape(one: seq<KmerHit>, two: seq<KmerHit>, first: seq<string>, second: seq<string>)
    requires forall i :: 0 <= i < |one| ==> one[i].ReadOne? && one[i].token != "" && one[i].token in first
    requires forall i :: 0 <= i < |two| ==> two[i].ReadTwo? && two[i].token in second
    requires forall t :: t in first ==> Lacks(t, ' ')
    requires forall t :: t in second ==> Lacks(t, ' ')
    ensures forall i, j :: 0 <= i < j < |one + two| && (one + two)[j].ReadOne? ==> (one + two)[i].ReadOne?
    ensures forall i :: 0 <= i < |one + two| && (one + two)[i].ReadOne? ==> (one + two)[i].token != ""
    ensures forall i, k :: 0 <= i < |one + two| && 0 <= k < |(one + two)[i].token| ==> (one + two)[i].token[k] != ' '
  {
    var r := one + two;
    forall i | 0 <= i < |r|
      ensures (i < |one| ==> r[i] == one[i]) && (i >= |one| ==> r[i] == two[i - |one|])
    {
    }
    assert forall i :: 0 <= i < |r| ==> Lacks(r[i].token, ' ');
  }

  /** No token of a blank-separated split contains a blank. */
  lemma TokensLackBlank(s: string)
    ensures forall t :: t in JavaSplit(s, TokenSeparator) ==> Lacks(t, ' ')
  {
    SplitAllPiecesFree(s, ' ');
    JavaSplitPrefix(s, TokenSeparator);
    var all := SplitAll(s, [' ']);
    forall t | t in JavaSplit(s, TokenSeparator)
      ensures Lacks(t, ' ')
    {
      var k :| 0 <= k < |JavaSplit(s, TokenSeparator)| && JavaSplit(s, TokenSeparator)[k] == t;
      assert t == all[k];
    }
  }

  /** sequenceLength2: when the second length is missing or empty. */
  function SecondLength(lengths: seq<string>): (r: Result<int, ParseError>)
    ensures (|lengths| < 2 || lengths[1] == "") ==> r == Success(0)
    ensures |lengths| >= 2 && lengths[1] != "" ==> (r.Success? <==> ParseInt(lengths[1]).Some?)
    ensures |lengths| >= 2 && lengths[1] != "" ==>
              && (r.Success? ==> ParseInt(lengths[1]) == Some(r.value))
              && (r.Failure? ==> r.error == NumberFormat(lengths[1]))
  {
    if |lengths| < 2 || lengths[1] == "" then Success(0)
    else match ParseInt(lengths[1])
      case None => Failure(NumberFormat(lengths[1]))
      case Some(n) => Success(n)
  }

  /** The constructor KrakenClassification(String line). */
  function Parse(line: string): (r: Result<KrakenClassification, ParseError>)
    ensures r.Success? ==> ToKrakenOutput(r.value) == line
    ensures |JavaSplit(line, FieldSeparator)| < 4 ==> r.Failure?
    ensures r.Success? ==>
      var fields := JavaSplit(line, FieldSeparator);
      && |fields| >= 4
      && (r.value.isClassified <==> fields[0] == "C")
      && r.value.sequenceId == fields[1]
      && ParseInt(fields[2]) == Some(r.value.taxonomyId)
      && (var lengths := JavaSplit(fields[3], LengthSeparator);
          && |lengths| >= 1
          && ParseInt(lengths[0]) == Some(r.value.sequenceLength)
          && SecondLength(lengths) == Success(r.value.sequenceLength2))
      && (|fields| < 5 ==> r.value.kmerTaxonomyIds == [])
      && (|fields| >= 5 ==> ParseKmerClassifications(fields[4]) == Success(r.value.kmerTaxonomyIds))
    ensures |JavaSplit(line, FieldSeparator)| >= 3 && ParseInt(JavaSplit(line, FieldSeparator)[2]).None? ==>
      r == Failure(NumberFormat(JavaSplit(line, FieldSeparator)[2]))
  {
    var fields := JavaSplit(line, FieldSeparator);
    if |fields| < 3 then Failure(ArrayIndexOutOfBounds)
    else match ParseInt(fields[2])
      case None => Failure(NumberFormat(fields[2]))
      case Some(taxonomyId) =>
        if |fields| < 4 then Failure(ArrayIndexOutOfBounds)
        else
          var lengths := JavaSplit(fields[3], LengthSeparator);
          if |lengths| == 0 then Failure(ArrayIndexOutOfBounds)
          else match ParseInt(lengths[0])
            case None => Failure(NumberFormat(lengths[0]))
            case Some(sequenceLength) =>
              match SecondLength(lengths)
              case Failure(e) => Failure(e)
              case Success(sequenceLength2) =>
                var hits := if |fields| >= 5 then ParseKmerClassifications(fields[4]) else Success([]);
                match hits
                case Failure(e) => Failure(e)
                case Success(kmers) =>
                  Success(KrakenClassification(line, fields[0] == "C", fields[1], taxonomyId,
                                               sequenceLength, sequenceLength2, kmers))
  }

  // ---------------------------------------------------------------------------
  // Lines as Kraken 2 writes them
  // ---------------------------------------------------------------------------

  predicate Lacks(s: string, c: char) {
    forall i :: 0 <= i < |s| ==> s[i] != c
  }

  /** A hit token as Kraken 2 prints it, e.g. "562:13": no blank, tab or pipe. */
  predicate IsToken(t: string) {
    t != "" && Lacks(t, ' ') && Lacks(t, '\t') && Lacks(t, '|')
  }

  predicate AreTokens(ts: seq<string>) {
    |ts| >= 1 && forall k :: 0 <= k < |ts| ==> IsToken(ts[k])
  }

  /** The line Kraken 2 prints for a single read. */
  function SingleReadLine(flag: string, id: string, taxon: int, length: int, hits: seq<string>): string
    requires |hits| >= 1
  {
    flag + "\t" + id + "\t" + ShowInt(taxon) + "\t" + ShowInt(length) + "\t" + Join(hits, " ")
  }

  /** The line Kraken 2 prints for a read pair: lengths "a|b", hit lists around " |:| ". */
  function PairedReadLine(flag: string, id: string, taxon: int, length1: int, length2: int,
                          hits1: seq<string>, hits2: seq<string>): string
    requires |hits1| >= 1 && |hits2| >= 1
  {
    flag + "\t" + id + "\t" + ShowInt(taxon) + "\t" + (ShowInt(length1) + "|" + ShowInt(length2))
    + "\t" + (Join(hits1, " ") + " |:| " + Join(hits2, " "))
  }

  lemma ShowIntLacks(n: int, c: char)
    requires c != '-' && !IsDigit(c)
    ensures Lacks(ShowInt(n), c)
  {
    if n < 0 {
      assert ShowInt(n) == "-" + ShowNat(-n);
    }
  }

  lemma TokensJoinLacks(ts: seq<string>, c: char)
    requires AreTokens(ts) && (c == '\t' || c == '|')
    ensures Lacks(Join(ts, " "), c)
  {
    JoinFree(ts, " ", c);
  }

  lemma TokensSplit(ts: seq<string>)
    requires AreTokens(ts)
    ensures JavaSplit(Join(ts, " "), " ") == ts
  {
    JavaSplitJoin(ts, " ");
  }

  /** Every tab-separated field of a five-field line is recovered. */
  lemma FieldsOf(a: string, b: string, c: string, d: string, e: string)
    requires Lacks(a, '\t') && Lacks(b, '\t') && Lacks(c, '\t') && Lacks(d, '\t') && Lacks(e, '\t')
    requires e != ""
    ensures JavaSplit(a + "\t" + b + "\t" + c + "\t" + d + "\t" + e, "\t") == [a, b, c, d, e]
  {
    var pieces := [a, b, c, d, e];
    assert Join(pieces[4..], "\t") == e;
    assert Join(pieces[3..], "\t") == d + "\t" + e by { assert pieces[3..][1..] == pieces[4..]; }
    assert Join(pieces[2..], "\t") == c + "\t" + d + "\t" + e by { assert pieces[2..][1..] == pieces[3..]; }
    assert Join(pieces[1..], "\t") == b + "\t" + c + "\t" + d + "\t" + e by { assert pieces[1..][1..] == pieces[2..]; }
    assert Join(pieces, "\t") == a + "\t" + b + "\t" + c + "\t" + d + "\t" + e;
    JavaSplitJoin(pieces, "\t");
  }

  /** A single-read line parses back into its parts; the hits are all read-one entries. */
  lemma ParseSingleReadLine(flag: string, id: string, taxon: int, length: int, hits: seq<string>)
    requires Lacks(flag, '\t') && Lacks(id, '\t')
    requires IsInt32(taxon) && IsInt32(length)
    requires AreTokens(hits)
    ensures var line := SingleReadLine(flag, id, taxon, length, hits);
            Parse(line) == Success(KrakenClassification(line, flag == "C", id, taxon, length, 0,
                                                        AllReadOne(hits)))
  {
    var line := SingleReadLine(flag, id, taxon, length, hits);
    var hitText := Join(hits, " ");
    ShowIntLacks(taxon, '\t');
    ShowIntLacks(length, '\t');
    ShowIntLacks(length, '|');
    TokensJoinLacks(hits, '\t');
    TokensJoinLacks(hits, '|');
    JoinLast(hits, " ");
    FieldsOf(flag, id, ShowInt(taxon), ShowInt(length), hitText);
    var fields := JavaSplit(line, "\t");
    assert fields == [flag, id, ShowInt(taxon), ShowInt(length), hitText];
    ParseShowInt(taxon);
    ParseShowInt(length);
    SplitAllNoSeparator(ShowInt(length), "|");
    assert JavaSplit(fields[3], "|") == [ShowInt(length)];
    SingleReadHits(hits);
  }

  /** A hit list without "|:|" is all read-one entries. */
  lemma SingleReadHits(hits: seq<string>)
    requires AreTokens(hits)
    ensures ParseKmerClassifications(Join(hits, " ")) == Success(AllReadOne(hits))
  {
    var hitText := Join(hits, " ");
    TokensJoinLacks(hits, '|');
    SplitAllNoSeparator(hitText, ReadSeparator);
    assert JavaSplit(hitText, ReadSeparator) == [hitText];
    TokensSplit(hits);
    ReadOneAllTokens(hits);
  }

  /** Every token as a read-one entry. */
  function AllReadOne(tokens: seq<string>): (r: seq<KmerHit>)
    ensures |r| == |tokens|
    ensures forall i :: 0 <= i < |r| ==> r[i] == ReadOne(tokens[i])
  {
    if |tokens| == 0 then [] else [ReadOne(tokens[0])] + AllReadOne(tokens[1..])
  }

  lemma {:induction false} ReadOneAllTokens(tokens: seq<string>)
    requires forall k :: 0 <= k < |tokens| ==> tokens[k] != ""
    ensures ReadOneHits(tokens) == AllReadOne(tokens)
  {
    if |tokens| > 0 {
      ReadOneAllTokens(tokens[1..]);
    }
  }

  lemma LacksConcat(a: string, b: string, c: char)
    requires Lacks(a, c) && Lacks(b, c)
    ensures Lacks(a + b, c)
  {
    forall i | 0 <= i < |a + b|
      ensures (a + b)[i] != c
    {
      if i >= |a| {
        assert (a + b)[i] == b[i - |a|];
      }
    }
  }

  /** Joining with an extra empty last piece appends one separator. */
  lemma {:induction false} JoinAppendEmpty(xs: seq<string>, sep: string)
    requires |xs| >= 1
    ensures Join(xs + [""], sep) == Join(xs, sep) + sep
    decreases |xs|
  {
    if |xs| > 1 {
      assert (xs + [""])[1..] == xs[1..] + [""];
      JoinAppendEmpty(xs[1..], sep);
    }
  }

  /** A pair whose second length is empty, e.g. "98|", has second length 0. */
  lemma EmptySecondLength(length: int)
    ensures JavaSplit(ShowInt(length) + "|", LengthSeparator) == [ShowInt(length)]
    ensures SecondLength(JavaSplit(ShowInt(length) + "|", LengthSeparator)) == Success(0)
  {
    ShowIntLacks(length, '|');
    SplitAllCons(ShowInt(length), LengthSeparator, "");
    assert ShowInt(length) + "|" == ShowInt(length) + LengthSeparator + "";
    var pieces := [ShowInt(length), ""];
    assert SplitAll(ShowInt(length) + "|", LengthSeparator) == pieces;
    assert pieces[..|pieces| - 1] == [ShowInt(length)];
    assert DropTrailingEmpty(pieces) == DropTrailingEmpty([ShowInt(length)]);
  }

  /** The constructor on a five-field line whose parts all parse. */
  lemma ParseOfParts(line: string, fields: seq<string>, lengths: seq<string>, taxon: int,
                     length1: int, length2: int, hits: seq<KmerHit>)
    requires JavaSplit(line, FieldSeparator) == fields && |fields| == 5
    requires ParseInt(fields[2]) == Some(taxon)
    requires JavaSplit(fields[3], LengthSeparator) == lengths && 1 <= |lengths|
    requires ParseInt(lengths[0]) == Some(length1)
    requires SecondLength(lengths) == Success(length2)
    requires ParseKmerClassifications(fields[4]) == Success(hits)
    ensures Parse(line) == Success(KrakenClassification(line, fields[0] == "C", fields[1], taxon, length1, length2, hits))
  {
  }

  /** The lengths "a|b" of a pair split into both numbers' spellings. */
  lemma PairedLengths(length1: int, length2: int)
    ensures Lacks(ShowInt(length1) + "|" + ShowInt(length2), '\t')
    ensures JavaSplit(ShowInt(length1) + "|" + ShowInt(length2), LengthSeparator) == [ShowInt(length1), ShowInt(length2)]
  {
    ShowIntLacks(length1, '\t');
    ShowIntLacks(length2, '\t');
    ShowIntLacks(length1, '|');
    ShowIntLacks(length2, '|');
    LacksConcat(ShowInt(length1), "|", '\t');
    LacksConcat(ShowInt(length1) + "|", ShowInt(length2), '\t');
    assert Join([ShowInt(length1), ShowInt(length2)], "|") == ShowInt(length1) + "|" + ShowInt(length2);
    JavaSplitJoin([ShowInt(length1), ShowInt(length2)], "|");
  }

  /** The read-one part: the blank before "|:|" leaves an empty last piece, which split drops. */
  lemma PairedReadOne(hits1: seq<string>)
    requires AreTokens(hits1)
    ensures JavaSplit(Join(hits1, " ") + " ", TokenSeparator) == hits1
  {
    JoinAppendEmpty(hits1, " ");
    SplitAllJoin(hits1 + [""], " ");
    assert DropTrailingEmpty(hits1 + [""]) == hits1;
  }

  /** The read-two part: the blank after "|:|" leaves an empty first piece, which is kept. */
  lemma PairedReadTwo(hits2: seq<string>)
    requires AreTokens(hits2)
    ensures JavaSplit(" " + Join(hits2, " "), TokenSeparator) == [""] + hits2
  {
    var pieces := [""] + hits2;
    JoinCons("", hits2, " ");
    assert "" + " " + Join(hits2, " ") == " " + Join(hits2, " ");
    forall k, i | 0 <= k < |pieces| && 0 <= i < |pieces[k]|
      ensures pieces[k][i] != ' '
    {
      assert k > 0 && pieces[k] == hits2[k - 1];
      assert IsToken(hits2[k - 1]);
    }
    assert pieces[|pieces| - 1] == hits2[|hits2| - 1];
    assert IsToken(hits2[|hits2| - 1]);
    JavaSplitJoin(pieces, " ");
  }

  /** parseKmerClassifications of a field holding two reads. */
  lemma KmerClassificationsOfTwo(str: string, p1: string, p2: string)
    requires JavaSplit(str, ReadSeparator) == [p1, p2] && p2 != ""
    ensures ParseKmerClassifications(str)
            == Success(ReadOneHits(JavaSplit(p1, TokenSeparator)) + ReadTwoHits(JavaSplit(p2, TokenSeparator)))
  {
  }

  lemma PairedHitValues(hits1: seq<string>, hits2: seq<string>)
    requires AreTokens(hits1)
    ensures ReadOneHits(hits1) + ReadTwoHits([""] + hits2) == AllReadOne(hits1) + [ReadTwo("")] + ReadTwoHits(hits2)
  {
    ReadOneAllTokens(hits1);
    assert ([""] + hits2)[1..] == hits2;
    assert ReadTwoHits([""] + hits2) == [ReadTwo("")] + ReadTwoHits(hits2);
  }

  /** The hit list of a pair: read-one entries, then an empty read-two entry, then the rest. */
  lemma PairedHits(hits1: seq<string>, hits2: seq<string>)
    requires AreTokens(hits1) && AreTokens(hits2)
    ensures Lacks(Join(hits1, " ") + " |:| " + Join(hits2, " "), '\t')
    ensures ParseKmerClassifications(Join(hits1, " ") + " |:| " + Join(hits2, " "))
            == Success(AllReadOne(hits1) + [ReadTwo("")] + ReadTwoHits(hits2))
  {
    var j1 := Join(hits1, " ");
    var j2 := Join(hits2, " ");
    var p1 := j1 + " ";
    var p2 := " " + j2;
    var hitText := j1 + " |:| " + j2;
    assert hitText == p1 + ReadSeparator + p2;
    TokensJoinLacks(hits1, '\t');
    TokensJoinLacks(hits2, '\t');
    TokensJoinLacks(hits1, '|');
    TokensJoinLacks(hits2, '|');
    LacksConcat(j1, " |:| ", '\t');
    LacksConcat(j1 + " |:| ", j2, '\t');
    LacksConcat(j1, " ", '|');
    LacksConcat(" ", j2, '|');
    assert Join([p1, p2], ReadSeparator) == hitText;
    JavaSplitJoin([p1, p2], ReadSeparator);
    assert JavaSplit(hitText, ReadSeparator) == [p1, p2];
    KmerClassificationsOfTwo(hitText, p1, p2);
    PairedReadOne(hits1);
    PairedReadTwo(hits2);
    ReadOneAllTokens(hits1);
    PairedHitValues(hits1, hits2);
  }

  /**
   * A read-pair line parses back into its parts. Because Kraken 2 writes
   * " |:| " with blanks around the separator, the read-two list starts with an
   * entry for the empty token: only read-one entries skip empty tokens.
   */
  lemma ParsePairedReadLine(flag: string, id: string, taxon: int, length1: int, length2: int,
                            hits1: seq<string>, hits2: seq<string>)
    requires Lacks(flag, '\t') && Lacks(id, '\t')
    requires IsInt32(taxon) && IsInt32(length1) && IsInt32(length2)
    requires AreTokens(hits1) && AreTokens(hits2)
    ensures var line := PairedReadLine(flag, id, taxon, length1, length2, hits1, hits2);
            Parse(line) == Success(KrakenClassification(line, flag == "C", id, taxon, length1, length2,
                                                        AllReadOne(hits1) + [ReadTwo("")] + ReadTwoHits(hits2)))
  {
    var line := PairedReadLine(flag, id, taxon, length1, length2, hits1, hits2);
    var lengthText := ShowInt(length1) + "|" + ShowInt(length2);
    var hitText := Join(hits1, " ") + " |:| " + Join(hits2, " ");
    ShowIntLacks(taxon, '\t');
    PairedLengths(length1, length2);
    PairedHits(hits1, hits2);
    assert hitText != "";
    FieldsOf(flag, id, ShowInt(taxon), lengthText, hitText);
    assert line == flag + "\t" + id + "\t" + ShowInt(taxon) + "\t" + lengthText + "\t" + hitText;
    var fields := JavaSplit(line, FieldSeparator);
    assert fields == [flag, id, ShowInt(taxon), lengthText, hitText];
    ParseShowInt(taxon);
    ParseShowInt(length1);
    ParseShowInt(length2);
    var lengths := [ShowInt(length1), ShowInt(length2)];
    assert SecondLength(lengths) == Success(length2);
    ParseOfParts(line, fields, lengths, taxon, length1, length2,
                 AllReadOne(hits1) + [ReadTwo("")] + ReadTwoHits(hits2));
  }
}
