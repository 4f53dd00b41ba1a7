/**
 * StructuralVariationCallBuilder: collects the soft clips, read pairs and
 * assemblies supporting a parent call, then makes the call, overriding its
 * breakpoint with the best assembly or realigned soft clip and writing the
 * aggregated VCF INFO attributes and the call ID.
 */
module CallBuilder {
  import opened Wrappers
  import opened Evidence
  import opened Aggregation
  import opened CallId

  /** The builder's state: the parent call, the evidence lists and the four reference counts. */
  datatype Builder = Builder(
    parent: Variant,
    scList: seq<SoftClip>,
    rpList: seq<ReadPair>,
    assList: seq<Variant>,
    referenceNormalReadCount: int,
    referenceNormalSpanningPairCount: int,
    referenceTumourReadCount: int,
    referenceTumourSpanningPairCount: int)

  /** The constructor: no evidence, every reference count -1. */
  function NewBuilder(parent: Variant): Builder {
    Builder(parent, [], [], [], -1, -1, -1, -1)
  }

  // ---------------------------------------------------------------------------
  // addEvidence
  // ---------------------------------------------------------------------------

  /** The list addEvidence appends an item to, as a one-item or empty list for each kind. */
  function SoftClipOf(e: DirectedEvidence): seq<SoftClip> {
    if e.SoftClipEvidence? then [e.softClip] else []
  }

  function ReadPairOf(e: DirectedEvidence): seq<ReadPair> {
    if e.ReadPairEvidence? then [e.readPair] else []
  }

  function VariantOf(e: DirectedEvidence): seq<Variant> {
    if e.VariantEvidence? then [e.variant] else []
  }

  /** The soft clips among the evidence, in order. */
  function SoftClipsOf(es: seq<DirectedEvidence>): seq<SoftClip> {
    if |es| == 0 then [] else SoftClipsOf(es[..|es| - 1]) + SoftClipOf(es[|es| - 1])
  }

  /** The read pairs among the evidence, in order. */
  function ReadPairsOf(es: seq<DirectedEvidence>): seq<ReadPair> {
    if |es| == 0 then [] else ReadPairsOf(es[..|es| - 1]) + ReadPairOf(es[|es| - 1])
  }

  /** The VCF-record evidence (assemblies) among the evidence, in order. */
  function VariantsOf(es: seq<DirectedEvidence>): seq<Variant> {
    if |es| == 0 then [] else VariantsOf(es[..|es| - 1]) + VariantOf(es[|es| - 1])
  }

  /** The kinds addEvidence files into a list. */
  predicate KnownKind(e: DirectedEvidence) {
    !e.OtherEvidence?
  }

  /**
   * The exceptions addEvidence throws. NotSupporting carries the builder as
   * the exception leaves it: the evidence has already been added.
   */
  datatype AddError = NullPointer | UnknownEvidenceType | NotSupporting(after: Builder)

  /**
   * addEvidence, with BreakendSummary.overlaps given as a parameter: file the
   * evidence by kind, then reject it when its breakend does not overlap the
   * parent's.
   */
  function AddEvidence(b: Builder, evidence: Option<DirectedEvidence>,
                       overlaps: (BreakendSummary, BreakendSummary) -> bool): (r: Result<Builder, AddError>)
    ensures evidence.None? ==> r == Failure(NullPointer)
    ensures evidence.Some? && !KnownKind(evidence.value) ==> r == Failure(UnknownEvidenceType)
    ensures r.Success? <==>
      evidence.Some? && KnownKind(evidence.value) && overlaps(b.parent.breakend, BreakendOf(evidence.value))
    ensures evidence.Some? && KnownKind(evidence.value) ==>
      r.Success? || r.error.NotSupporting?
    ensures evidence.Some? && (r.Success? || r.error.NotSupporting?) ==>
      (var after := if r.Success? then r.value else r.error.after;
       after == b.(scList := b.scList + SoftClipOf(evidence.value),
                   rpList := b.rpList + ReadPairOf(evidence.value),
                   assList := b.assList + VariantOf(evidence.value)))
  {
    match evidence
    case None => Failure(NullPointer)
    case Some(e) =>
      if e.OtherEvidence? then Failure(UnknownEvidenceType)
      else
        var after := match e
          case SoftClipEvidence(sc) => b.(scList := b.scList + [sc])
          case VariantEvidence(v) => b.(assList := b.assList + [v])
          case ReadPairEvidence(rp) => b.(rpList := b.rpList + [rp]);
        if overlaps(b.parent.breakend, BreakendOf(e)) then Success(after) else Failure(NotSupporting(after))
  }

  /** A caller adding each item in turn, stopping at the first exception. */
  function AddAll(b: Builder, es: seq<DirectedEvidence>,
                  overlaps: (BreakendSummary, BreakendSummary) -> bool): Result<Builder, AddError>
  {
    if |es| == 0 then Success(b)
    else match AddAll(b, es[..|es| - 1], overlaps)
      case Success(b') => AddEvidence(b', Some(es[|es| - 1]), overlaps)
      case Failure(err) => Failure(err)
  }

  /** Every item is accepted exactly when each is of a known kind and overlaps the parent. */
  predicate AllSupport(parent: Variant, es: seq<DirectedEvidence>, overlaps: (BreakendSummary, BreakendSummary) -> bool) {
    forall i :: 0 <= i < |es| ==> KnownKind(es[i]) && overlaps(parent.breakend, BreakendOf(es[i]))
  }

  /**
   * Adding a run of evidence succeeds exactly when every item supports the
   * parent, and then each list grows by the items of its kind, in order,
   * while the parent and the reference counts stay as they were.
   */
  lemma {:induction false} AddAllFiles(b: Builder, es: seq<DirectedEvidence>,
                                       overlaps: (BreakendSummary, BreakendSummary) -> bool)
    ensures AddAll(b, es, overlaps).Success? <==> AllSupport(b.parent, es, overlaps)
    ensures AddAll(b, es, overlaps).Success? ==>
      AddAll(b, es, overlaps).value
        == b.(scList := b.scList + SoftClipsOf(es),
              rpList := b.rpList + ReadPairsOf(es),
              assList := b.assList + VariantsOf(es))
  {
    if |es| > 0 {
      var init := es[..|es| - 1];
      var e := es[|es| - 1];
      AddAllFiles(b, init, overlaps);
      var r := AddAll(b, init, overlaps);
      if r.Success? {
        AddAllStep(b, r.value, init, e, overlaps);
        assert es == init + [e];
      } else {
        assert !AllSupport(b.parent, es, overlaps) by {
          if AllSupport(b.parent, es, overlaps) {
            assert forall i :: 0 <= i < |init| ==> init[i] == es[i];
          }
        }
      }
    }
  }

  /** One more item on top of a run that was filed whole. */
  lemma AddAllStep(b: Builder, b': Builder, init: seq<DirectedEvidence>, e: DirectedEvidence,
                   overlaps: (BreakendSummary, BreakendSummary) -> bool)
    requires AllSupport(b.parent, init, overlaps)
    requires AddAll(b, init, overlaps) == Success(b')
    requires b' == b.(scList := b.scList + SoftClipsOf(init), rpList := b.rpList + ReadPairsOf(init), assList := b.assList + VariantsOf(init))
    ensures var es := init + [e];
      && (AddAll(b, es, overlaps).Success? <==> AllSupport(b.parent, es, overlaps))
      && (AddAll(b, es, overlaps).Success? ==>
          AddAll(b, es, overlaps).value
            == b.(scList := b.scList + SoftClipsOf(es), rpList := b.rpList + ReadPairsOf(es), assList := b.assList + VariantsOf(es)))
  {
    var es := init + [e];
    AddAllSnoc(b, b', init, e, overlaps);
    SupportSnoc(b.parent, init, e, overlaps);
    ListsSnoc(init, e);
    var r := AddEvidence(b', Some(e), overlaps);
    if r.Success? {
      assert b.scList + SoftClipsOf(es) == b'.scList + SoftClipOf(e);
      assert b.rpList + ReadPairsOf(es) == b'.rpList + ReadPairOf(e);
      assert b.assList + VariantsOf(es) == b'.assList + VariantOf(e);
    }
  }

  /** Adding one more item continues from the builder the run left. */
  lemma AddAllSnoc(b: Builder, b': Builder, init: seq<DirectedEvidence>, e: DirectedEvidence,
                   overlaps: (BreakendSummary, BreakendSummary) -> bool)
    requires AddAll(b, init, overlaps) == Success(b')
    ensures AddAll(b, init + [e], overlaps) == AddEvidence(b', Some(e), overlaps)
  {
    var es := init + [e];
    assert es[..|es| - 1] == init && es[|es| - 1] == e;
  }

  /** A longer run supports the parent exactly when the run did and the new item does. */
  lemma SupportSnoc(parent: Variant, init: seq<DirectedEvidence>, e: DirectedEvidence,
                    overlaps: (BreakendSummary, BreakendSummary) -> bool)
    ensures AllSupport(parent, init + [e], overlaps)
      <==> AllSupport(parent, init, overlaps) && KnownKind(e) && overlaps(parent.breakend, BreakendOf(e))
  {
    var es := init + [e];
    assert forall i :: 0 <= i < |init| ==> es[i] == init[i];
    assert es[|init|] == e;
  }

  /** The items of each kind in a longer run. */
  lemma ListsSnoc(init: seq<DirectedEvidence>, e: DirectedEvidence)
    ensures SoftClipsOf(init + [e]) == SoftClipsOf(init) + SoftClipOf(e)
    ensures ReadPairsOf(init + [e]) == ReadPairsOf(init) + ReadPairOf(e)
    ensures VariantsOf(init + [e]) == VariantsOf(init) + VariantOf(e)
  {
    var es := init + [e];
    assert es[..|es| - 1] == init && es[|es| - 1] == e;
  }

  /** referenceReads: set the normal and tumour reference read counts. */
  function ReferenceReads(b: Builder, normalCount: int, tumourCount: int): Builder {
    b.(referenceNormalReadCount := normalCount, referenceTumourReadCount := tumourCount)
  }

  /** referenceSpanningPairs: set the normal and tumour reference spanning pair counts. */
  function ReferenceSpanningPairs(b: Builder, normalCount: int, tumourCount: int): Builder {
    b.(referenceNormalSpanningPairCount := normalCount, referenceTumourSpanningPairCount := tumourCount)
  }

  // ---------------------------------------------------------------------------
  // The evidence orders
  // ---------------------------------------------------------------------------

  /** Ordering.natural().compare on doubles. */
  function CompareReals(x: real, y: real): int {
    if x < y then -1 else if x == y then 0 else 1
  }

  /** A two-link ComparisonChain: the first non-zero result. */
  function Chain(first: int, second: int): int {
    if first != 0 then first else second
  }

  predicate Realigned(sc: SoftClip) {
    sc.realignment.Some?
  }

  predicate IsBreakpoint(v: Variant) {
    v.isBreakpoint
  }

  /**
   * SoftClipByBestDesc: realigned soft clips first, then llr(o2) against
   * itself, so the log-likelihood drops out whatever llr is.
   */
  function SoftClipByBestDesc(llr: SoftClip -> real, o1: SoftClip, o2: SoftClip): (r: int)
    ensures r == TrueFirst(Realigned(o1), Realigned(o2))
  {
    Chain(TrueFirst(Realigned(o1), Realigned(o2)), CompareReals(llr(o2), llr(o2)))
  }

  /** AssemblyByBestDesc: breakpoint assemblies first; the llr term again compares a value with itself. */
  function AssemblyByBestDesc(llr: Variant -> real, o1: Variant, o2: Variant): (r: int)
    ensures r == TrueFirst(IsBreakpoint(o1), IsBreakpoint(o2))
  {
    Chain(TrueFirst(IsBreakpoint(o1), IsBreakpoint(o2)), CompareReals(llr(o2), llr(o2)))
  }

  function SoftClipOrder(llr: SoftClip -> real): (SoftClip, SoftClip) -> int {
    (a, b) => SoftClipByBestDesc(llr, a, b)
  }

  function AssemblyOrder(llr: Variant -> real): (Variant, Variant) -> int {
    (a, b) => AssemblyByBestDesc(llr, a, b)
  }

  /** Collections.sort(scList, SoftClipByBestDesc): the realigned soft clips, then the others, each in arrival order. */
  lemma SortedSoftClips(scList: seq<SoftClip>, llr: SoftClip -> real)
    ensures Sort(scList, SoftClipOrder(llr)) == Filter(scList, Realigned, true) + Filter(scList, Realigned, false)
    ensures multiset(Sort(scList, SoftClipOrder(llr))) == multiset(scList)
  {
    SortTrueFirst(scList, Realigned, SoftClipOrder(llr));
    SortPermutes(scList, SoftClipOrder(llr));
  }

  /** Collections.sort(assList, AssemblyByBestDesc): the breakpoint assemblies, then the others, each in arrival order. */
  lemma SortedAssemblies(assList: seq<Variant>, llr: Variant -> real)
    ensures Sort(assList, AssemblyOrder(llr)) == Filter(assList, IsBreakpoint, true) + Filter(assList, IsBreakpoint, false)
    ensures multiset(Sort(assList, AssemblyOrder(llr))) == multiset(assList)
  {
    SortTrueFirst(assList, IsBreakpoint, AssemblyOrder(llr));
    SortPermutes(assList, AssemblyOrder(llr));
  }

  // ---------------------------------------------------------------------------
  // The per-evidence values sumOrMax folds
  // ---------------------------------------------------------------------------

  function ReadPairSource(rp: ReadPair): EvidenceSource { rp.source }
  function SoftClipSource(sc: SoftClip): EvidenceSource { sc.source }

  predicate Discordant(rp: ReadPair) {
    rp.discordantRemoteMapq.Some?
  }

  function DiscordantIndicator(rp: ReadPair): int {
    if Discordant(rp) then 1 else 0
  }

  function LocalMapq(rp: ReadPair): int { rp.localMapq }

  /** The remote mapq of a discordant pair, 0 for any other pair. */
  function RemoteMapq(rp: ReadPair): int {
    match rp.discordantRemoteMapq
    case Some(q) => q
    case None => 0
  }

  function RealignedIndicator(sc: SoftClip): int {
    if Realigned(sc) then 1 else 0
  }

  /** The remote mapq of a realigned soft clip, 0 for any other soft clip. */
  function SoftClipRemoteMapq(sc: SoftClip): int {
    match sc.realignment
    case Some(r) => r.remoteMapq
    case None => 0
  }

  function SoftClipLength(sc: SoftClip): int { sc.softClipLength }

  // ---------------------------------------------------------------------------
  // make
  // ---------------------------------------------------------------------------

  /**
   * The call make returns: its breakend, untemplated breakpoint sequence,
   * ID and INFO attributes, and the total log-likelihood ratio make passes
   * to phredScore.
   */
  datatype Call = Call(
    breakend: BreakendSummary,
    breakpointSequence: string,
    id: string,
    attributes: map<VcfAttribute, AttributeValue>,
    phredScore: real)

  /** The attribute lists of each record, in order. */
  function IntLists(list: seq<Variant>, key: VcfAttribute): seq<seq<int>> {
    seq(|list|, i requires 0 <= i < |list| => IntListAttribute(list[i], key))
  }

  function StringLists(list: seq<Variant>, key: VcfAttribute): seq<seq<string>> {
    seq(|list|, i requires 0 <= i < |list| => StringListAttribute(list[i], key))
  }

  /** The keys make writes from the evidence lists and reference counts. */
  predicate Aggregated(key: VcfAttribute) {
    !key.OtherAttribute? && !key.LogLikelihood?
  }

  /** The log-likelihood ratio keys setLlr writes. */
  const LlrKeys: set<VcfAttribute> :=
    {LogLikelihood(AssemblyLlr), LogLikelihood(SoftClipLlr), LogLikelihood(ReadPairLlr), LogLikelihood(TotalLlr)}

  /** Every aggregated attribute make writes. */
  const AggregatedKeys: set<VcfAttribute> := {
    Reference(ReferenceCountRead), Reference(ReferenceCountReadpair),
    AssemblyInt(AssemblyEvidenceCount), AssemblyInt(AssemblyMapped), AssemblyInt(AssemblyMapqRemoteMax),
    AssemblyInt(AssemblyMapqRemoteTotal), AssemblyInt(AssemblyLengthLocalMax), AssemblyInt(AssemblyLengthRemoteMax),
    AssemblyInt(AssemblyBaseCount), AssemblyInt(AssemblyReadpairCount), AssemblyInt(AssemblyReadpairLengthMax),
    AssemblyInt(AssemblySoftclipCount), AssemblyInt(AssemblySoftclipCliplengthTotal),
    AssemblyInt(AssemblySoftclipCliplengthMax),
    AssemblyString(AssemblyConsensus), AssemblyString(AssemblyProgram), AssemblyString(AssemblyBreakendQuals),
    ReadPairAttribute(ReadpairEvidenceCount), ReadPairAttribute(ReadpairMappedReadpair),
    ReadPairAttribute(ReadpairMapqLocalMax), ReadPairAttribute(ReadpairMapqLocalTotal),
    ReadPairAttribute(ReadpairMapqRemoteMax), ReadPairAttribute(ReadpairMapqRemoteTotal),
    SoftClipAttribute(SoftclipEvidenceCount), SoftClipAttribute(SoftclipMapped),
    SoftClipAttribute(SoftclipMapqRemoteTotal), SoftClipAttribute(SoftclipMapqRemoteMax),
    SoftClipAttribute(SoftclipLengthRemoteTotal), SoftClipAttribute(SoftclipLengthRemoteMax)}

  /** Whether aggregateAssemblyAttributes folds an integer attribute with max (else with a sum). */
  predicate UsesMax(k: AssemblyIntKey) {
    k in {AssemblyMapqRemoteMax, AssemblyLengthLocalMax, AssemblyLengthRemoteMax,
          AssemblyReadpairLengthMax, AssemblySoftclipCliplengthMax}
  }

  /** aggregateReadPairAttributes: the pair count, then sumOrMax of each per-pair value. */
  function ReadPairValue(rpList: seq<ReadPair>, k: ReadPairKey): AttributeValue {
    match k
    case ReadpairEvidenceCount => IntValue(|rpList|)
    case ReadpairMappedReadpair => IntList(SumOrMaxOf(rpList, ReadPairSource, DiscordantIndicator, false))
    case ReadpairMapqLocalMax => IntList(SumOrMaxOf(rpList, ReadPairSource, LocalMapq, true))
    case ReadpairMapqLocalTotal => IntList(SumOrMaxOf(rpList, ReadPairSource, LocalMapq, false))
    case ReadpairMapqRemoteMax => IntList(SumOrMaxOf(rpList, ReadPairSource, RemoteMapq, true))
    case ReadpairMapqRemoteTotal => IntList(SumOrMaxOf(rpList, ReadPairSource, RemoteMapq, false))
  }

  /** aggregateSoftClipAttributes: the soft clip count, then sumOrMax of each per-clip value. */
  function SoftClipValue(scList: seq<SoftClip>, k: SoftClipKey): AttributeValue {
    match k
    case SoftclipEvidenceCount => IntValue(|scList|)
    case SoftclipMapped => IntList(SumOrMaxOf(scList, SoftClipSource, RealignedIndicator, true))
    case SoftclipMapqRemoteTotal => IntList(SumOrMaxOf(scList, SoftClipSource, SoftClipRemoteMapq, false))
    case SoftclipMapqRemoteMax => IntList(SumOrMaxOf(scList, SoftClipSource, SoftClipRemoteMapq, true))
    case SoftclipLengthRemoteTotal => IntList(SumOrMaxOf(scList, SoftClipSource, SoftClipLength, false))
    case SoftclipLengthRemoteMax => IntList(SumOrMaxOf(scList, SoftClipSource, SoftClipLength, true))
  }

  /**
   * The value make writes for an aggregated attribute, from a builder whose
   * lists are already sorted: the reference counts as [normal, tumour], the
   * assembly attributes over the assemblies followed by the parent, and the
   * read pair and soft clip attributes.
   */
  function AttributeOf(s: Builder, key: VcfAttribute): AttributeValue
    requires Aggregated(key)
  {
    match key
    case Reference(ReferenceCountRead) => IntList([s.referenceNormalReadCount, s.referenceTumourReadCount])
    case Reference(ReferenceCountReadpair) =>
      IntList([s.referenceNormalSpanningPairCount, s.referenceTumourSpanningPairCount])
    case AssemblyInt(k) => IntList(SumOrMaxColumns(IntLists(s.assList + [s.parent], key), UsesMax(k)))
    case AssemblyString(_) => StringList(Concat(StringLists(s.assList + [s.parent], key)))
    case ReadPairAttribute(k) => ReadPairValue(s.rpList, k)
    case SoftClipAttribute(k) => SoftClipValue(s.scList, k)
  }

  /** Every aggregated key is among the keys make writes. */
  lemma AggregatedKey(key: VcfAttribute)
    requires Aggregated(key)
    ensures key in AggregatedKeys
  {
    match key
    case Reference(k) =>
      match k {
      case ReferenceCountRead =>
      case ReferenceCountReadpair =>
      }
    case AssemblyInt(k) =>
      match k {
      case AssemblyEvidenceCount =>
      case AssemblyMapped =>
      case AssemblyMapqRemoteMax =>
      case AssemblyMapqRemoteTotal =>
      case AssemblyLengthLocalMax =>
      case AssemblyLengthRemoteMax =>
      case AssemblyBaseCount =>
      case AssemblyReadpairCount =>
      case AssemblyReadpairLengthMax =>
      case AssemblySoftclipCount =>
      case AssemblySoftclipCliplengthTotal =>
      case AssemblySoftclipCliplengthMax =>
      }
    case AssemblyString(k) =>
      match k {
      case AssemblyConsensus =>
      case AssemblyProgram =>
      case AssemblyBreakendQuals =>
      }
    case ReadPairAttribute(k) =>
      match k {
      case ReadpairEvidenceCount =>
      case ReadpairMappedReadpair =>
      case ReadpairMapqLocalMax =>
      case ReadpairMapqLocalTotal =>
      case ReadpairMapqRemoteMax =>
      case ReadpairMapqRemoteTotal =>
      }
    case SoftClipAttribute(k) =>
      match k {
      case SoftclipEvidenceCount =>
      case SoftclipMapped =>
      case SoftclipMapqRemoteTotal =>
      case SoftclipMapqRemoteMax =>
      case SoftclipLengthRemoteTotal =>
      case SoftclipLengthRemoteMax =>
      }
  }

  /**
   * setLlr: each log-likelihood ratio starts from the parent's own value (0
   * when absent). As written, the read pairs' ratios are added to the
   * assembly total, and the read pair total stays the parent's; the total is
   * the sum of the three.
   */
  function LlrOf(s: Builder, assLlr: Variant -> real, scLlr: SoftClip -> real, rpLlr: ReadPair -> real, k: LlrKey): real {
    var assembly := DoubleAttribute(s.parent, LogLikelihood(AssemblyLlr), 0.0) + SumOf(s.assList, assLlr) + SumOf(s.rpList, rpLlr);
    var softClip := DoubleAttribute(s.parent, LogLikelihood(SoftClipLlr), 0.0) + SumOf(s.scList, scLlr);
    var readPair := DoubleAttribute(s.parent, LogLikelihood(ReadPairLlr), 0.0);
    match k
    case AssemblyLlr => assembly
    case SoftClipLlr => softClip
    case ReadPairLlr => readPair
    case TotalLlr => assembly + softClip + readPair
  }

  /** The parent's attributes with every aggregated attribute and log-likelihood ratio written over them. */
  function Attributes(s: Builder, llr: LlrKey -> real): map<VcfAttribute, AttributeValue> {
    map k | k in s.parent.attributes.Keys + AggregatedKeys + LlrKeys ::
      if k.OtherAttribute? then s.parent.attributes[k]
      else if k.LogLikelihood? then RealValue(llr(k.llrKey))
      else AttributeOf(s, k)
  }

  /**
   * The breakpoint override: the first sorted assembly when it is a
   * breakpoint, else the first sorted soft clip when it is realigned, else
   * the parent's own breakend and sequence.
   */
  function Override(s: Builder): (BreakendSummary, string) {
    if |s.assList| > 0 && s.assList[0].isBreakpoint then
      (s.assList[0].breakend, s.assList[0].breakpointSequence)
    else if |s.scList| > 0 && s.scList[0].realignment.Some? then
      (s.scList[0].breakend, s.scList[0].realignment.value.untemplatedSequence)
    else
      (s.parent.breakend, s.parent.breakpointSequence)
  }

  /** The builder with its assembly and soft clip lists sorted as make sorts them. */
  function Sorted(b: Builder, assLlr: Variant -> real, scLlr: SoftClip -> real): Builder {
    b.(assList := Sort(b.assList, AssemblyOrder(assLlr)), scList := Sort(b.scList, SoftClipOrder(scLlr)))
  }

  /**
   * make: sort, override the breakpoint, write the attributes and the
   * log-likelihood ratios, pass the total ratio to phredScore, and name the
   * call after the parent's breakend.
   */
  function Make(b: Builder, dictionary: int -> string, assLlr: Variant -> real, scLlr: SoftClip -> real, rpLlr: ReadPair -> real): Call {
    var s := Sorted(b, assLlr, scLlr);
    var (breakend, sequence) := Override(s);
    var llr := k => LlrOf(s, assLlr, scLlr, rpLlr, k);
    Call(breakend, sequence, GetId(b.parent.breakend, dictionary), Attributes(s, llr), llr(TotalLlr))
  }

  // ---------------------------------------------------------------------------
  // What the aggregates promise, on the lists themselves
  // ---------------------------------------------------------------------------

  /** i is the first index of xs whose key holds. */
  predicate FirstWhere<T>(xs: seq<T>, key: T -> bool, i: int) {
    0 <= i < |xs| && key(xs[i]) && forall j :: 0 <= j < i ==> !key(xs[j])
  }

  /** The head of a sort by a "key true first" order has a true key exactly when some element does, and is then the first such. */
  lemma SortHead<T>(xs: seq<T>, key: T -> bool, sorted: seq<T>)
    requires sorted == Filter(xs, key, true) + Filter(xs, key, false)
    ensures |sorted| > 0 && key(sorted[0]) <==> exists i :: 0 <= i < |xs| && key(xs[i])
    ensures |sorted| > 0 && key(sorted[0]) ==> exists i :: FirstWhere(xs, key, i) && sorted[0] == xs[i]
  {
    FilterHead(xs, key);
    FilterKey(xs, key, false);
    if |Filter(xs, key, true)| == 0 {
      assert sorted == Filter(xs, key, false);
    } else {
      var i :| 0 <= i < |xs| && key(xs[i]) && (forall j :: 0 <= j < i ==> !key(xs[j]))
        && Filter(xs, key, true)[0] == xs[i];
      assert FirstWhere(xs, key, i);
    }
  }

  /** The override chosen from lists sorted breakpoint-first and realigned-first. */
  lemma OverrideOfSorted(b: Builder, s: Builder)
    requires s.parent == b.parent
    requires s.assList == Filter(b.assList, IsBreakpoint, true) + Filter(b.assList, IsBreakpoint, false)
    requires s.scList == Filter(b.scList, Realigned, true) + Filter(b.scList, Realigned, false)
    ensures var (breakend, sequence) := Override(s);
      && ((exists i :: 0 <= i < |b.assList| && IsBreakpoint(b.assList[i])) ==>
            exists i :: FirstWhere(b.assList, IsBreakpoint, i)
              && breakend == b.assList[i].breakend && sequence == b.assList[i].breakpointSequence)
      && ((forall i :: 0 <= i < |b.assList| ==> !IsBreakpoint(b.assList[i]))
          && (exists i :: 0 <= i < |b.scList| && Realigned(b.scList[i])) ==>
            exists i :: FirstWhere(b.scList, Realigned, i)
              && breakend == b.scList[i].breakend
              && sequence == b.scList[i].realignment.value.untemplatedSequence)
      && ((forall i :: 0 <= i < |b.assList| ==> !IsBreakpoint(b.assList[i]))
          && (forall i :: 0 <= i < |b.scList| ==> !Realigned(b.scList[i])) ==>
            breakend == b.parent.breakend && sequence == b.parent.breakpointSequence)
  {
    SortHead(b.assList, IsBreakpoint, s.assList);
    SortHead(b.scList, Realigned, s.scList);
  }

  /** READPAIR_MAPPED_READPAIR per slot: the number of discordant pairs in it. */
  lemma DiscordantPairCounts(rpList: seq<ReadPair>)
    ensures ReadPairValue(rpList, ReadpairMappedReadpair)
         == IntList(SumOrMaxOf(rpList, ReadPairSource, DiscordantIndicator, false))
    ensures var l := SumOrMaxOf(rpList, ReadPairSource, DiscordantIndicator, false);
      && |l| == (if HasNonSamSource(rpList, ReadPairSource) then 1 else 2)
      && l[0] == CountWhere(SlotItems(rpList, ReadPairSource, false), Discordant)
      && (|l| == 2 ==> l[1] == CountWhere(SlotItems(rpList, ReadPairSource, true), Discordant))
  {
    AccumulateIndicator(rpList, ReadPairSource, DiscordantIndicator, Discordant, false);
    AccumulateIndicator(rpList, ReadPairSource, DiscordantIndicator, Discordant, true);
  }

  /** Some soft clip of the list is realigned and falls in the slot. */
  predicate RealignedInSlot(scList: seq<SoftClip>, tumour: bool) {
    exists sc :: sc in scList && InTumourSlot(sc.source) == tumour && Realigned(sc)
  }

  /** The max of the realigned indicator over a slot, for the soft clips in any order. */
  lemma SlotFlag(sorted: seq<SoftClip>, scList: seq<SoftClip>, tumour: bool)
    requires multiset(sorted) == multiset(scList)
    ensures Accumulate(SlotValues(sorted, SoftClipSource, RealignedIndicator, tumour), true)
         == if RealignedInSlot(scList, tumour) then 1 else 0
  {
    AccumulateIndicator(sorted, SoftClipSource, RealignedIndicator, Realigned, tumour);
    var items := SlotItems(sorted, SoftClipSource, tumour);
    CountWherePositive(items, Realigned);
    SlotItemsMembers(sorted, SoftClipSource, tumour);
    if RealignedInSlot(scList, tumour) {
      var sc :| sc in scList && InTumourSlot(sc.source) == tumour && Realigned(sc);
      assert sc in multiset(sorted);
      assert sc in items;
    } else {
      forall i | 0 <= i < |items|
        ensures !Realigned(items[i])
      {
        var sc := items[i];
        assert sc in items;
        assert sc in sorted && InTumourSlot(sc.source) == tumour;
        assert sc in multiset(scList);
      }
    }
  }

  /** SOFTCLIP_MAPPED per slot: 1 when some soft clip of the slot is realigned, else 0. */
  lemma RealignedFlags(sorted: seq<SoftClip>, scList: seq<SoftClip>)
    requires multiset(sorted) == multiset(scList)
    ensures SoftClipValue(sorted, SoftclipMapped) == IntList(SumOrMaxOf(sorted, SoftClipSource, RealignedIndicator, true))
    ensures var l := SumOrMaxOf(sorted, SoftClipSource, RealignedIndicator, true);
      && |l| >= 1
      && l[0] == (if RealignedInSlot(scList, false) then 1 else 0)
      && (|l| == 2 ==> l[1] == if RealignedInSlot(scList, true) then 1 else 0)
  {
    SlotFlag(sorted, scList, false);
    SlotFlag(sorted, scList, true);
  }

  /** A whole sumOrMax result of zeros. */
  predicate AllZero(l: seq<int>) {
    forall i :: 0 <= i < |l| ==> l[i] == 0
  }

  /** The remote mapq attributes are sumOrMax of the remote mapq, with max and with a sum. */
  lemma RemoteMapqValues(rpList: seq<ReadPair>, scList: seq<SoftClip>)
    ensures ReadPairValue(rpList, ReadpairMapqRemoteMax) == IntList(SumOrMaxOf(rpList, ReadPairSource, RemoteMapq, true))
    ensures ReadPairValue(rpList, ReadpairMapqRemoteTotal) == IntList(SumOrMaxOf(rpList, ReadPairSource, RemoteMapq, false))
    ensures SoftClipValue(scList, SoftclipMapqRemoteMax) == IntList(SumOrMaxOf(scList, SoftClipSource, SoftClipRemoteMapq, true))
    ensures SoftClipValue(scList, SoftclipMapqRemoteTotal) == IntList(SumOrMaxOf(scList, SoftClipSource, SoftClipRemoteMapq, false))
  {
  }

  /** Without a discordant pair, the remote mapq sums and maxima are all zero. */
  lemma ConcordantRemoteMapq(rpList: seq<ReadPair>)
    requires forall i :: 0 <= i < |rpList| ==> !Discordant(rpList[i])
    ensures AllZero(SumOrMaxOf(rpList, ReadPairSource, RemoteMapq, true))
    ensures AllZero(SumOrMaxOf(rpList, ReadPairSource, RemoteMapq, false))
  {
    SumOrMaxZero(rpList, ReadPairSource, RemoteMapq, Discordant, true);
    SumOrMaxZero(rpList, ReadPairSource, RemoteMapq, Discordant, false);
  }

  /** A reordering of soft clips none of which is realigned holds none that is. */
  lemma NoneRealigned(sorted: seq<SoftClip>, scList: seq<SoftClip>)
    requires multiset(sorted) == multiset(scList)
    requires forall i :: 0 <= i < |scList| ==> !Realigned(scList[i])
    ensures forall i :: 0 <= i < |sorted| ==> !Realigned(sorted[i])
  {
    forall i | 0 <= i < |sorted|
      ensures !Realigned(sorted[i])
    {
      var x := sorted[i];
      assert x in multiset(scList);
      assert x in scList;
    }
  }

  /** Without a realigned soft clip, the remote mapq sums and maxima are all zero, in any order. */
  lemma UnrealignedRemoteMapq(sorted: seq<SoftClip>, scList: seq<SoftClip>)
    requires multiset(sorted) == multiset(scList)
    requires forall i :: 0 <= i < |scList| ==> !Realigned(scList[i])
    ensures AllZero(SumOrMaxOf(sorted, SoftClipSource, SoftClipRemoteMapq, true))
    ensures AllZero(SumOrMaxOf(sorted, SoftClipSource, SoftClipRemoteMapq, false))
  {
    NoneRealigned(sorted, scList);
    SumOrMaxZero(sorted, SoftClipSource, SoftClipRemoteMapq, Realigned, true);
    SumOrMaxZero(sorted, SoftClipSource, SoftClipRemoteMapq, Realigned, false);
  }

  /** Column i of lists + [l] ends with l[i]. */
  lemma ColumnLast(lists: seq<seq<int>>, l: seq<int>, i: nat)
    requires i < |l|
    ensures |Column(lists + [l], i)| > 0 && Column(lists + [l], i)[|Column(lists + [l], i)| - 1] == l[i]
  {
    ColumnSnoc(lists, l, i);
  }

  /** The element-wise max over lists that end with p reaches p's length and is at least p at each of its indexes. */
  lemma MaxIncludesLast(lists: seq<seq<int>>, p: seq<int>)
    ensures var r := SumOrMaxColumns(lists + [p], true);
      && |p| <= |r|
      && forall i :: 0 <= i < |p| ==> p[i] <= r[i]
  {
    var all := lists + [p];
    assert all[|all| - 1] == p;
    forall i | 0 <= i < |p|
      ensures p[i] <= Accumulate(Column(all, i), true)
    {
      ColumnLast(lists, p, i);
      AccumulateMax(Column(all, i));
    }
  }

  /** Reading one attribute of each record maps over concatenation. */
  lemma StringListsAppend(a: seq<Variant>, b: seq<Variant>, key: VcfAttribute)
    ensures StringLists(a + b, key) == StringLists(a, key) + StringLists(b, key)
  {
  }

  lemma IntListsAppend(a: seq<Variant>, b: seq<Variant>, key: VcfAttribute)
    ensures IntLists(a + b, key) == IntLists(a, key) + IntLists(b, key)
  {
  }

  /** The concatenated string lists of t, then f, then the parent. */
  lemma ConcatRecords(t: seq<Variant>, f: seq<Variant>, parent: Variant, key: VcfAttribute)
    ensures Concat(StringLists(t + f + [parent], key))
         == Concat(StringLists(t, key)) + Concat(StringLists(f, key)) + StringListAttribute(parent, key)
  {
    var p := [StringListAttribute(parent, key)];
    StringListsAppend(t + f, [parent], key);
    StringListsAppend(t, f, key);
    assert StringLists([parent], key) == p;
    ConcatAppend(StringLists(t, key) + StringLists(f, key), p);
    ConcatAppend(StringLists(t, key), StringLists(f, key));
    assert Concat(p) == Concat([]) + p[0];
  }

  // ---------------------------------------------------------------------------
  // What make promises
  // ---------------------------------------------------------------------------

  /** Sorting leaves the parent, the read pairs and the reference counts alone, and only reorders the other lists. */
  lemma SortedKeeps(b: Builder, assLlr: Variant -> real, scLlr: SoftClip -> real)
    ensures var s := Sorted(b, assLlr, scLlr);
      && s.parent == b.parent && s.rpList == b.rpList
      && s.referenceNormalReadCount == b.referenceNormalReadCount
      && s.referenceTumourReadCount == b.referenceTumourReadCount
      && s.referenceNormalSpanningPairCount == b.referenceNormalSpanningPairCount
      && s.referenceTumourSpanningPairCount == b.referenceTumourSpanningPairCount
      && s.assList == Filter(b.assList, IsBreakpoint, true) + Filter(b.assList, IsBreakpoint, false)
      && s.scList == Filter(b.scList, Realigned, true) + Filter(b.scList, Realigned, false)
      && multiset(s.scList) == multiset(b.scList)
  {
    SortedAssemblies(b.assList, assLlr);
    SortedSoftClips(b.scList, scLlr);
  }

  /** make's breakpoint is the override chosen from the sorted lists. */
  lemma MakeOverride(b: Builder, dictionary: int -> string, assLlr: Variant -> real, scLlr: SoftClip -> real, rpLlr: ReadPair -> real)
    ensures var c := Make(b, dictionary, assLlr, scLlr, rpLlr);
      (c.breakend, c.breakpointSequence) == Override(Sorted(b, assLlr, scLlr))
  {
  }

  /** make writes each aggregated attribute from the sorted lists. */
  lemma MakeAttribute(b: Builder, key: VcfAttribute, dictionary: int -> string, assLlr: Variant -> real, scLlr: SoftClip -> real, rpLlr: ReadPair -> real)
    requires Aggregated(key)
    ensures key in Make(b, dictionary, assLlr, scLlr, rpLlr).attributes
    ensures Make(b, dictionary, assLlr, scLlr, rpLlr).attributes[key] == AttributeOf(Sorted(b, assLlr, scLlr), key)
  {
    AggregatedKey(key);
  }

  /** The read pair attributes are computed from the read pairs alone. */
  lemma ReadPairAttributeOf(s: Builder, k: ReadPairKey)
    ensures AttributeOf(s, ReadPairAttribute(k)) == ReadPairValue(s.rpList, k)
  {
  }

  /** The soft clip attributes are computed from the sorted soft clips alone. */
  lemma SoftClipAttributeOf(s: Builder, k: SoftClipKey)
    ensures AttributeOf(s, SoftClipAttribute(k)) == SoftClipValue(s.scList, k)
  {
  }

  /** The values written for the reference counts and evidence counts. */
  lemma CountAttributes(s: Builder)
    ensures AttributeOf(s, Reference(ReferenceCountRead)) == IntList([s.referenceNormalReadCount, s.referenceTumourReadCount])
    ensures AttributeOf(s, Reference(ReferenceCountReadpair))
         == IntList([s.referenceNormalSpanningPairCount, s.referenceTumourSpanningPairCount])
    ensures AttributeOf(s, ReadPairAttribute(ReadpairEvidenceCount)) == IntValue(|s.rpList|)
    ensures AttributeOf(s, SoftClipAttribute(SoftclipEvidenceCount)) == IntValue(|s.scList|)
  {
  }

  /**
   * The breakpoint make reports: the first breakpoint assembly in arrival
   * order if there is one, else the first realigned soft clip with its
   * untemplated sequence, else the parent's own.
   */
  lemma OverrideChoice(b: Builder, dictionary: int -> string, assLlr: Variant -> real, scLlr: SoftClip -> real, rpLlr: ReadPair -> real)
    ensures var c := Make(b, dictionary, assLlr, scLlr, rpLlr);
      && ((exists i :: 0 <= i < |b.assList| && IsBreakpoint(b.assList[i])) ==>
            exists i :: FirstWhere(b.assList, IsBreakpoint, i)
              && c.breakend == b.assList[i].breakend && c.breakpointSequence == b.assList[i].breakpointSequence)
      && ((forall i :: 0 <= i < |b.assList| ==> !IsBreakpoint(b.assList[i]))
          && (exists i :: 0 <= i < |b.scList| && Realigned(b.scList[i])) ==>
            exists i :: FirstWhere(b.scList, Realigned, i)
              && c.breakend == b.scList[i].breakend
              && c.breakpointSequence == b.scList[i].realignment.value.untemplatedSequence)
      && ((forall i :: 0 <= i < |b.assList| ==> !IsBreakpoint(b.assList[i]))
          && (forall i :: 0 <= i < |b.scList| ==> !Realigned(b.scList[i])) ==>
            c.breakend == b.parent.breakend && c.breakpointSequence == b.parent.breakpointSequence)
  {
    MakeOverride(b, dictionary, assLlr, scLlr, rpLlr);
    SortedKeeps(b, assLlr, scLlr);
    OverrideOfSorted(b, Sorted(b, assLlr, scLlr));
  }

  /**
   * The call ID names the parent's breakend, even when the breakpoint is
   * overridden: decoding it gives back the parent's locations.
   */
  lemma MakeIdNamesParent(b: Builder, dictionary: int -> string, assLlr: Variant -> real, scLlr: SoftClip -> real, rpLlr: ReadPair -> real)
    requires var call := b.parent.breakend;
      && (forall i :: 0 <= i < |dictionary(call.referenceIndex)| ==> dictionary(call.referenceIndex)[i] != ':')
      && (call.BreakpointSummary? ==>
            forall i :: 0 <= i < |dictionary(call.referenceIndex2)| ==> dictionary(call.referenceIndex2)[i] != ':')
    ensures DecodeId(Make(b, dictionary, assLlr, scLlr, rpLlr).id) == Some(LocationsOf(b.parent.breakend, dictionary))
  {
    DecodeGetId(b.parent.breakend, dictionary);
  }

  /**
   * The attributes of the call are the parent's plus the aggregated ones and
   * the log-likelihood ratios; any other attribute keeps the parent's value.
   */
  lemma MakeKeepsParentAttributes(b: Builder, dictionary: int -> string, assLlr: Variant -> real, scLlr: SoftClip -> real, rpLlr: ReadPair -> real)
    ensures var c := Make(b, dictionary, assLlr, scLlr, rpLlr);
      && c.attributes.Keys == b.parent.attributes.Keys + AggregatedKeys + LlrKeys
      && forall k :: k in b.parent.attributes && k.OtherAttribute? ==> c.attributes[k] == b.parent.attributes[k]
  {
  }

  /**
   * The log-likelihood ratios make writes, and the total it passes to
   * phredScore, from the builder's unsorted lists: each starts from the
   * parent's own ratio (0 when absent); the assembly total adds the
   * assemblies' and, as written, the read pairs' ratios; the soft clip total
   * adds the soft clips'; the read pair total stays the parent's.
   */
  lemma MakeLlr(b: Builder, dictionary: int -> string, assLlr: Variant -> real, scLlr: SoftClip -> real, rpLlr: ReadPair -> real)
    ensures var c := Make(b, dictionary, assLlr, scLlr, rpLlr);
      var assembly := DoubleAttribute(b.parent, LogLikelihood(AssemblyLlr), 0.0) + SumOf(b.assList, assLlr) + SumOf(b.rpList, rpLlr);
      var softClip := DoubleAttribute(b.parent, LogLikelihood(SoftClipLlr), 0.0) + SumOf(b.scList, scLlr);
      var readPair := DoubleAttribute(b.parent, LogLikelihood(ReadPairLlr), 0.0);
      && c.attributes[LogLikelihood(AssemblyLlr)] == RealValue(assembly)
      && c.attributes[LogLikelihood(SoftClipLlr)] == RealValue(softClip)
      && c.attributes[LogLikelihood(ReadPairLlr)] == RealValue(readPair)
      && c.attributes[LogLikelihood(TotalLlr)] == RealValue(assembly + softClip + readPair)
      && c.phredScore == assembly + softClip + readPair
  {
    MakeLlrKey(b, AssemblyLlr, dictionary, assLlr, scLlr, rpLlr);
    MakeLlrKey(b, SoftClipLlr, dictionary, assLlr, scLlr, rpLlr);
    MakeLlrKey(b, ReadPairLlr, dictionary, assLlr, scLlr, rpLlr);
    MakeLlrKey(b, TotalLlr, dictionary, assLlr, scLlr, rpLlr);
  }

  /** make writes each log-likelihood ratio, and passes the total to phredScore. */
  lemma MakeLlrKey(b: Builder, k: LlrKey, dictionary: int -> string, assLlr: Variant -> real, scLlr: SoftClip -> real, rpLlr: ReadPair -> real)
    ensures var c := Make(b, dictionary, assLlr, scLlr, rpLlr);
      && LogLikelihood(k) in c.attributes
      && c.attributes[LogLikelihood(k)] == RealValue(LlrOf(b, assLlr, scLlr, rpLlr, k))
      && c.phredScore == LlrOf(b, assLlr, scLlr, rpLlr, TotalLlr)
  {
    assert LogLikelihood(k) in LlrKeys;
    LlrOfSorted(b, assLlr, scLlr, rpLlr, k);
    LlrOfSorted(b, assLlr, scLlr, rpLlr, TotalLlr);
  }

  /** Sorting the lists leaves every log-likelihood ratio unchanged. */
  lemma LlrOfSorted(b: Builder, assLlr: Variant -> real, scLlr: SoftClip -> real, rpLlr: ReadPair -> real, k: LlrKey)
    ensures LlrOf(Sorted(b, assLlr, scLlr), assLlr, scLlr, rpLlr, k) == LlrOf(b, assLlr, scLlr, rpLlr, k)
  {
    var s := Sorted(b, assLlr, scLlr);
    SortedKeeps(b, assLlr, scLlr);
    SumOfPartition(b.assList, IsBreakpoint, assLlr);
    SumOfPartition(b.scList, Realigned, scLlr);
    assert SumOf(s.assList, assLlr) == SumOf(b.assList, assLlr);
    assert SumOf(s.scList, scLlr) == SumOf(b.scList, scLlr);
  }

  /** The reference counts set with referenceReads and referenceSpanningPairs come out as [normal, tumour]. */
  lemma MakeReferenceCounts(b: Builder, readNormal: int, readTumour: int, pairNormal: int, pairTumour: int,
                            dictionary: int -> string, assLlr: Variant -> real, scLlr: SoftClip -> real, rpLlr: ReadPair -> real)
    ensures var c := Make(ReferenceSpanningPairs(ReferenceReads(b, readNormal, readTumour), pairNormal, pairTumour),
                          dictionary, assLlr, scLlr, rpLlr);
      && c.attributes[Reference(ReferenceCountRead)] == IntList([readNormal, readTumour])
      && c.attributes[Reference(ReferenceCountReadpair)] == IntList([pairNormal, pairTumour])
  {
    var b' := ReferenceSpanningPairs(ReferenceReads(b, readNormal, readTumour), pairNormal, pairTumour);
    MakeAttribute(b', Reference(ReferenceCountRead), dictionary, assLlr, scLlr, rpLlr);
    MakeAttribute(b', Reference(ReferenceCountReadpair), dictionary, assLlr, scLlr, rpLlr);
    SortedKeeps(b', assLlr, scLlr);
    CountAttributes(Sorted(b', assLlr, scLlr));
  }

  /**
   * A builder that was only given evidence writes -1 for every reference
   * count, and counts exactly the read pairs and soft clips it was given.
   */
  lemma MakeFromEvidenceOnly(parent: Variant, es: seq<DirectedEvidence>, overlaps: (BreakendSummary, BreakendSummary) -> bool,
                             dictionary: int -> string, assLlr: Variant -> real, scLlr: SoftClip -> real, rpLlr: ReadPair -> real)
    requires AllSupport(parent, es, overlaps)
    ensures AddAll(NewBuilder(parent), es, overlaps).Success?
    ensures var c := Make(AddAll(NewBuilder(parent), es, overlaps).value, dictionary, assLlr, scLlr, rpLlr);
      && c.attributes[Reference(ReferenceCountRead)] == IntList([-1, -1])
      && c.attributes[Reference(ReferenceCountReadpair)] == IntList([-1, -1])
      && c.attributes[ReadPairAttribute(ReadpairEvidenceCount)] == IntValue(|ReadPairsOf(es)|)
      && c.attributes[SoftClipAttribute(SoftclipEvidenceCount)] == IntValue(|SoftClipsOf(es)|)
  {
    AddAllFiles(NewBuilder(parent), es, overlaps);
    var b := AddAll(NewBuilder(parent), es, overlaps).value;
    assert b.referenceNormalReadCount == b.referenceTumourReadCount == -1;
    assert b.referenceNormalSpanningPairCount == b.referenceTumourSpanningPairCount == -1;
    assert b.rpList == ReadPairsOf(es) && b.scList == SoftClipsOf(es);
    MakeCounts(b, dictionary, assLlr, scLlr, rpLlr);
  }

  /** make writes the builder's reference counts and the number of read pairs and soft clips it holds. */
  lemma MakeCounts(b: Builder, dictionary: int -> string, assLlr: Variant -> real, scLlr: SoftClip -> real, rpLlr: ReadPair -> real)
    ensures var c := Make(b, dictionary, assLlr, scLlr, rpLlr);
      && c.attributes[Reference(ReferenceCountRead)] == IntList([b.referenceNormalReadCount, b.referenceTumourReadCount])
      && c.attributes[Reference(ReferenceCountReadpair)] == IntList([b.referenceNormalSpanningPairCount, b.referenceTumourSpanningPairCount])
      && c.attributes[ReadPairAttribute(ReadpairEvidenceCount)] == IntValue(|b.rpList|)
      && c.attributes[SoftClipAttribute(SoftclipEvidenceCount)] == IntValue(|b.scList|)
  {
    var s := Sorted(b, assLlr, scLlr);
    MakeAttribute(b, Reference(ReferenceCountRead), dictionary, assLlr, scLlr, rpLlr);
    MakeAttribute(b, Reference(ReferenceCountReadpair), dictionary, assLlr, scLlr, rpLlr);
    MakeAttribute(b, ReadPairAttribute(ReadpairEvidenceCount), dictionary, assLlr, scLlr, rpLlr);
    MakeAttribute(b, SoftClipAttribute(SoftclipEvidenceCount), dictionary, assLlr, scLlr, rpLlr);
    SortedKeeps(b, assLlr, scLlr);
    CountAttributes(s);
    assert |s.scList| == |multiset(s.scList)| == |b.scList|;
  }

  /**
   * READPAIR_MAPPED_READPAIR counts, per slot, the discordant pairs; the
   * second slot is present exactly when every pair came from a SAM source.
   */
  lemma MakeCountsDiscordantPairs(b: Builder, dictionary: int -> string, assLlr: Variant -> real, scLlr: SoftClip -> real, rpLlr: ReadPair -> real)
    ensures Make(b, dictionary, assLlr, scLlr, rpLlr).attributes[ReadPairAttribute(ReadpairMappedReadpair)]
         == IntList(SumOrMaxOf(b.rpList, ReadPairSource, DiscordantIndicator, false))
    ensures var l := SumOrMaxOf(b.rpList, ReadPairSource, DiscordantIndicator, false);
      && |l| == (if HasNonSamSource(b.rpList, ReadPairSource) then 1 else 2)
      && l[0] == CountWhere(SlotItems(b.rpList, ReadPairSource, false), Discordant)
      && (|l| == 2 ==> l[1] == CountWhere(SlotItems(b.rpList, ReadPairSource, true), Discordant))
  {
    MakeAttribute(b, ReadPairAttribute(ReadpairMappedReadpair), dictionary, assLlr, scLlr, rpLlr);
    SortedKeeps(b, assLlr, scLlr);
    ReadPairAttributeOf(Sorted(b, assLlr, scLlr), ReadpairMappedReadpair);
    DiscordantPairCounts(b.rpList);
  }

  /**
   * SOFTCLIP_MAPPED is folded with max, so each slot is a 0/1 flag: 1
   * exactly when some soft clip of that slot was realigned.
   */
  lemma MakeFlagsRealignedSoftClips(b: Builder, dictionary: int -> string, assLlr: Variant -> real, scLlr: SoftClip -> real, rpLlr: ReadPair -> real)
    ensures Make(b, dictionary, assLlr, scLlr, rpLlr).attributes[SoftClipAttribute(SoftclipMapped)]
         == IntList(SumOrMaxOf(Sorted(b, assLlr, scLlr).scList, SoftClipSource, RealignedIndicator, true))
    ensures var l := SumOrMaxOf(Sorted(b, assLlr, scLlr).scList, SoftClipSource, RealignedIndicator, true);
      && |l| >= 1
      && l[0] == (if RealignedInSlot(b.scList, false) then 1 else 0)
      && (|l| == 2 ==> l[1] == if RealignedInSlot(b.scList, true) then 1 else 0)
  {
    MakeAttribute(b, SoftClipAttribute(SoftclipMapped), dictionary, assLlr, scLlr, rpLlr);
    SortedKeeps(b, assLlr, scLlr);
    SoftClipAttributeOf(Sorted(b, assLlr, scLlr), SoftclipMapped);
    RealignedFlags(Sorted(b, assLlr, scLlr).scList, b.scList);
  }

  /** With no discordant pair, both remote mapq attributes of the read pairs are all zero. */
  lemma MakeRemoteMapqOfConcordantPairs(b: Builder, dictionary: int -> string, assLlr: Variant -> real, scLlr: SoftClip -> real, rpLlr: ReadPair -> real)
    requires forall i :: 0 <= i < |b.rpList| ==> !Discordant(b.rpList[i])
    ensures var c := Make(b, dictionary, assLlr, scLlr, rpLlr);
      && c.attributes[ReadPairAttribute(ReadpairMapqRemoteMax)].IntList? && AllZero(c.attributes[ReadPairAttribute(ReadpairMapqRemoteMax)].ints)
      && c.attributes[ReadPairAttribute(ReadpairMapqRemoteTotal)].IntList? && AllZero(c.attributes[ReadPairAttribute(ReadpairMapqRemoteTotal)].ints)
  {
    MakeAttribute(b, ReadPairAttribute(ReadpairMapqRemoteMax), dictionary, assLlr, scLlr, rpLlr);
    MakeAttribute(b, ReadPairAttribute(ReadpairMapqRemoteTotal), dictionary, assLlr, scLlr, rpLlr);
    SortedKeeps(b, assLlr, scLlr);
    ReadPairAttributeOf(Sorted(b, assLlr, scLlr), ReadpairMapqRemoteMax);
    ReadPairAttributeOf(Sorted(b, assLlr, scLlr), ReadpairMapqRemoteTotal);
    RemoteMapqValues(b.rpList, Sorted(b, assLlr, scLlr).scList);
    ConcordantRemoteMapq(b.rpList);
  }

  /** With no realigned soft clip, both remote mapq attributes of the soft clips are all zero. */
  lemma MakeRemoteMapqOfUnrealignedSoftClips(b: Builder, dictionary: int -> string, assLlr: Variant -> real, scLlr: SoftClip -> real, rpLlr: ReadPair -> real)
    requires forall i :: 0 <= i < |b.scList| ==> !Realigned(b.scList[i])
    ensures var c := Make(b, dictionary, assLlr, scLlr, rpLlr);
      && c.attributes[SoftClipAttribute(SoftclipMapqRemoteMax)].IntList? && AllZero(c.attributes[SoftClipAttribute(SoftclipMapqRemoteMax)].ints)
      && c.attributes[SoftClipAttribute(SoftclipMapqRemoteTotal)].IntList? && AllZero(c.attributes[SoftClipAttribute(SoftclipMapqRemoteTotal)].ints)
  {
    MakeAttribute(b, SoftClipAttribute(SoftclipMapqRemoteMax), dictionary, assLlr, scLlr, rpLlr);
    MakeAttribute(b, SoftClipAttribute(SoftclipMapqRemoteTotal), dictionary, assLlr, scLlr, rpLlr);
    SortedKeeps(b, assLlr, scLlr);
    SoftClipAttributeOf(Sorted(b, assLlr, scLlr), SoftclipMapqRemoteMax);
    SoftClipAttributeOf(Sorted(b, assLlr, scLlr), SoftclipMapqRemoteTotal);
    RemoteMapqValues(b.rpList, Sorted(b, assLlr, scLlr).scList);
    UnrealignedRemoteMapq(Sorted(b, assLlr, scLlr).scList, b.scList);
  }

  /** The assemblies followed by the parent, as make aggregates them. */
  function AssemblyRecords(b: Builder, assLlr: Variant -> real): seq<Variant> {
    Sort(b.assList, AssemblyOrder(assLlr)) + [b.parent]
  }

  /**
   * An integer assembly attribute is as long as the longest list among the
   * assemblies and the parent, and each index folds, with max or with a sum
   * as the attribute says, the values of the lists that reach it.
   */
  lemma MakeAssemblyIntAttribute(b: Builder, k: AssemblyIntKey,
                                 dictionary: int -> string, assLlr: Variant -> real, scLlr: SoftClip -> real, rpLlr: ReadPair -> real)
    ensures var lists := IntLists(AssemblyRecords(b, assLlr), AssemblyInt(k));
      && Make(b, dictionary, assLlr, scLlr, rpLlr).attributes[AssemblyInt(k)] == IntList(SumOrMaxColumns(lists, UsesMax(k)))
      && |SumOrMaxColumns(lists, UsesMax(k))| == MaxLength(lists)
      && (forall i :: 0 <= i < MaxLength(lists) ==>
            SumOrMaxColumns(lists, UsesMax(k))[i] == Accumulate(Column(lists, i), UsesMax(k)))
  {
    MakeAttribute(b, AssemblyInt(k), dictionary, assLlr, scLlr, rpLlr);
    assert Sorted(b, assLlr, scLlr).assList + [Sorted(b, assLlr, scLlr).parent] == AssemblyRecords(b, assLlr);
  }

  /** A max assembly attribute is at least the parent's own value at every index the parent has. */
  lemma MakeMaxIncludesParent(b: Builder, k: AssemblyIntKey,
                              dictionary: int -> string, assLlr: Variant -> real, scLlr: SoftClip -> real, rpLlr: ReadPair -> real)
    requires UsesMax(k)
    ensures var key := AssemblyInt(k);
      var v := Make(b, dictionary, assLlr, scLlr, rpLlr).attributes[key];
      && v.IntList?
      && |IntListAttribute(b.parent, key)| <= |v.ints|
      && forall i :: 0 <= i < |IntListAttribute(b.parent, key)| ==> IntListAttribute(b.parent, key)[i] <= v.ints[i]
  {
    var key := AssemblyInt(k);
    var sorted := Sort(b.assList, AssemblyOrder(assLlr));
    MakeAssemblyIntAttribute(b, k, dictionary, assLlr, scLlr, rpLlr);
    IntListsAppend(sorted, [b.parent], key);
    assert IntLists([b.parent], key) == [IntListAttribute(b.parent, key)];
    MaxIncludesLast(IntLists(sorted, key), IntListAttribute(b.parent, key));
  }

  /**
   * A string assembly attribute lists the breakpoint assemblies' values,
   * then the other assemblies', each in arrival order, then the parent's.
   */
  lemma MakeConcatOrder(b: Builder, k: AssemblyStringKey,
                        dictionary: int -> string, assLlr: Variant -> real, scLlr: SoftClip -> real, rpLlr: ReadPair -> real)
    ensures var key := AssemblyString(k);
      Make(b, dictionary, assLlr, scLlr, rpLlr).attributes[key]
         == StringList(Concat(StringLists(Filter(b.assList, IsBreakpoint, true), key))
                       + Concat(StringLists(Filter(b.assList, IsBreakpoint, false), key))
                       + StringListAttribute(b.parent, key))
  {
    var key := AssemblyString(k);
    var t := Filter(b.assList, IsBreakpoint, true);
    var f := Filter(b.assList, IsBreakpoint, false);
    MakeAttribute(b, key, dictionary, assLlr, scLlr, rpLlr);
    SortedKeeps(b, assLlr, scLlr);
    ConcatRecords(t, f, b.parent, key);
  }
}
