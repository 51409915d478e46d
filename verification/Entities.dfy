/** The index records that the numbering reads and writes. */
module Entities {
  import opened Containment
  import opened Forest

  datatype Option<+T> = None | Some(value: T)

  datatype Span = Span(start: int, end: int)

  datatype InstanceType =
    | Definition | Declaration | Expansion | Sentinel | Containment | Source
    | Header | Build | WholeFile | Documentation

  /** What a producer records of an instance; never changed afterwards. */
  datatype InstanceInfo = InstanceInfo(
    symbolLocalId: int, instanceType: InstanceType, start: int, end: int, folded: bool,
    name: Option<Span>, signature: Option<Span>, content: Option<Span>)

  /** What a producer records of a reference. */
  datatype RefInfo = RefInfo(toSymbolLocalId: int, start: int, end: int, full: Option<Span>)

  class SymbolInstance {
    const info: InstanceInfo
    var dfsEnter: int
    var dfsExit: int
    var nestingLevel: int
    var foldDepth: int

    constructor (info: InstanceInfo)
      ensures this.info == info
    {
      this.info := info;
      dfsEnter, dfsExit, nestingLevel, foldDepth := 0, 0, 0, 0;
    }

    function Place(): Place
      reads this
    {
      Forest.Place(dfsEnter, dfsExit, nestingLevel, foldDepth)
    }
  }

  class SymbolRef {
    const info: RefInfo
    var dfsEnter: int
    var nestingLevel: int
    var foldDepth: int

    constructor (info: RefInfo)
      ensures this.info == info
    {
      this.info := info;
      dfsEnter, nestingLevel, foldDepth := 0, 0, 0;
    }

    function Range(): Range {
      Containment.Range(info.start, info.end)
    }

    function Point(): Point
      reads this
    {
      Forest.Point(dfsEnter, nestingLevel, foldDepth)
    }
  }

  ghost predicate Distinct<T>(items: seq<T>) {
    forall i, j | 0 <= i < j < |items| :: items[i] != items[j]
  }

  ghost function Places(insts: seq<SymbolInstance>): (num: seq<Place>)
    reads insts
    ensures |num| == |insts|
  {
    seq(|insts|, k requires 0 <= k < |insts| reads insts => insts[k].Place())
  }

  ghost function Points(refs: seq<SymbolRef>): (points: seq<Point>)
    reads refs
    ensures |points| == |refs|
  {
    seq(|refs|, k requires 0 <= k < |refs| reads refs => refs[k].Point())
  }

  function RangesOf(refs: seq<SymbolRef>): (ranges: seq<Range>)
    ensures |ranges| == |refs|
  {
    seq(|refs|, k requires 0 <= k < |refs| => refs[k].Range())
  }

  function FoldedFlags(insts: seq<SymbolInstance>): (folded: seq<bool>)
    ensures |folded| == |insts|
  {
    seq(|insts|, k requires 0 <= k < |insts| => insts[k].info.folded)
  }
}
