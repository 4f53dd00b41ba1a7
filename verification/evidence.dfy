/**
 * The evidence a structural variant call is built from: breakend locations,
 * the source an item of evidence was read from, soft clips, read pairs and
 * VCF records (assemblies and the call being built), with the VCF INFO
 * attributes the call builder aggregates.
 */
module Evidence {
  import opened Wrappers

  datatype Direction = Forward | Backward

  /**
   * BreakendSummary and its subclass BreakpointSummary: a breakend on one
   * contig (given by its index in the sequence dictionary) somewhere in the
   * closed interval [start, end], and for a breakpoint the partner breakend.
   */
  datatype BreakendSummary =
    | BreakendSummary(referenceIndex: int, start: int, end: int, direction: Direction)
    | BreakpointSummary(referenceIndex: int, start: int, end: int, direction: Direction,
                        referenceIndex2: int, start2: int, end2: int, direction2: Direction)

  /**
   * Where evidence came from: a SAM/BAM input that is either the normal or
   * the tumour sample, or some other (non-SAM) source.
   */
  datatype EvidenceSource = SamEvidenceSource(isTumour: bool) | OtherEvidenceSource

  /** The slot sumOrMax folds a value into: the tumour slot only for a tumour SAM source. */
  predicate InTumourSlot(s: EvidenceSource) {
    s.SamEvidenceSource? && s.isTumour
  }

  /** What a RealignedSoftClipEvidence adds to a soft clip: the realigned mate's mapq and the untemplated bases. */
  datatype Realignment = Realignment(remoteMapq: int, untemplatedSequence: string)

  /** SoftClipEvidence; realignment is present exactly for a RealignedSoftClipEvidence. */
  datatype SoftClip = SoftClip(
    source: EvidenceSource,
    breakend: BreakendSummary,
    softClipLength: int,
    realignment: Option<Realignment>)

  /** NonReferenceReadPair; discordantRemoteMapq is present exactly for a DiscordantReadPair. */
  datatype ReadPair = ReadPair(
    source: EvidenceSource,
    breakend: BreakendSummary,
    localMapq: int,
    discordantRemoteMapq: Option<int>)

  /** The VCF INFO attributes the call builder writes, grouped as it aggregates them (VcfAttributes constants). */
  datatype ReferenceKey = ReferenceCountRead | ReferenceCountReadpair

  datatype AssemblyIntKey =
    | AssemblyEvidenceCount | AssemblyMapped | AssemblyMapqRemoteMax | AssemblyMapqRemoteTotal
    | AssemblyLengthLocalMax | AssemblyLengthRemoteMax | AssemblyBaseCount | AssemblyReadpairCount
    | AssemblyReadpairLengthMax | AssemblySoftclipCount | AssemblySoftclipCliplengthTotal
    | AssemblySoftclipCliplengthMax

  datatype AssemblyStringKey = AssemblyConsensus | AssemblyProgram | AssemblyBreakendQuals

  datatype ReadPairKey =
    | ReadpairEvidenceCount | ReadpairMappedReadpair | ReadpairMapqLocalMax | ReadpairMapqLocalTotal
    | ReadpairMapqRemoteMax | ReadpairMapqRemoteTotal

  datatype SoftClipKey =
    | SoftclipEvidenceCount | SoftclipMapped | SoftclipMapqRemoteTotal | SoftclipMapqRemoteMax
    | SoftclipLengthRemoteTotal | SoftclipLengthRemoteMax

  /** The log-likelihood ratio attributes setLlr writes. */
  datatype LlrKey = AssemblyLlr | SoftClipLlr | ReadPairLlr | TotalLlr

  /** An INFO attribute key: one the call builder aggregates, a log-likelihood ratio, or any other. */
  datatype VcfAttribute =
    | Reference(referenceKey: ReferenceKey)
    | AssemblyInt(assemblyIntKey: AssemblyIntKey)
    | AssemblyString(assemblyStringKey: AssemblyStringKey)
    | ReadPairAttribute(readPairKey: ReadPairKey)
    | SoftClipAttribute(softClipKey: SoftClipKey)
    | LogLikelihood(llrKey: LlrKey)
    | OtherAttribute(name: string)

  /** An attribute value; RealValue stands for a Java double. */
  datatype AttributeValue =
    | IntValue(i: int) | IntList(ints: seq<int>) | StringList(strings: seq<string>) | RealValue(r: real)

  /**
   * VariantContextDirectedEvidence: a VCF record used as evidence (an
   * assembly) or as the parent of a call. isBreakpoint holds for a
   * VariantContextDirectedBreakpoint.
   */
  datatype Variant = Variant(
    source: EvidenceSource,
    breakend: BreakendSummary,
    isBreakpoint: bool,
    breakpointSequence: string,
    attributes: map<VcfAttribute, AttributeValue>)

  /** getAttributeAsIntList: a single value reads as a one-element list, an absent one as the empty list. */
  function IntListAttribute(v: Variant, key: VcfAttribute): seq<int> {
    if key !in v.attributes then []
    else match v.attributes[key]
      case IntValue(i) => [i]
      case IntList(ints) => ints
      case StringList(_) => []
      case RealValue(_) => []
  }

  /** getAttributeAsStringList: an absent attribute reads as the empty list. */
  function StringListAttribute(v: Variant, key: VcfAttribute): seq<string> {
    if key !in v.attributes then []
    else match v.attributes[key]
      case StringList(strings) => strings
      case _ => []
  }

  /**
   * getAttributeAsDouble: an absent attribute reads as the default, a number
   * as its value; a list reads as the default.
   */
  function DoubleAttribute(v: Variant, key: VcfAttribute, default: real): (r: real)
    ensures key !in v.attributes ==> r == default
    ensures key in v.attributes && v.attributes[key].RealValue? ==> r == v.attributes[key].r
    ensures key in v.attributes && v.attributes[key].IntValue? ==> r == v.attributes[key].i as real
  {
    if key !in v.attributes then default
    else match v.attributes[key]
      case RealValue(x) => x
      case IntValue(i) => i as real
      case _ => default
  }

  /** Any DirectedEvidence; OtherEvidence is a kind the call builder does not know. */
  datatype DirectedEvidence =
    | SoftClipEvidence(softClip: SoftClip)
    | ReadPairEvidence(readPair: ReadPair)
    | VariantEvidence(variant: Variant)
    | OtherEvidence(otherSource: EvidenceSource, otherBreakend: BreakendSummary)

  /** getBreakendSummary of any evidence. */
  function BreakendOf(e: DirectedEvidence): BreakendSummary {
    match e
    case SoftClipEvidence(sc) => sc.breakend
    case ReadPairEvidence(rp) => rp.breakend
    case VariantEvidence(v) => v.breakend
    case OtherEvidence(_, b) => b
  }
}
