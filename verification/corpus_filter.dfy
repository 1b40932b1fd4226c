/**
 The corpus filter (filter_out_lib.py): drop every bit whose url contains
 "/reference/files/", keep the others unchanged and in order, and write them under a fixed
 header. Reading and writing the JSON files is not modelled.
 */
module CorpusFilter {
  import opened Text

  datatype Info = Info(url: string, title: string, description: string)

  /** One retrievable chunk and its provenance. */
  datatype Bit = Bit(text: string, info: Info)

  /** A corpus file: header fields and the bits. */
  datatype Library = Library(version: int, embeddingModel: string, bits: seq<Bit>)

  const ExcludedPath: string := "/reference/files/"
  const OutputVersion: int := 1
  const OutputModel: string := "openai.com:text-embedding-ada-002"

  predicate Excluded(b: Bit) {
    Contains(b.info.url, ExcludedPath)
  }

  /** Reference definition of the filter: the bits that are not excluded, in input order. */
  function Kept(bits: seq<Bit>): (r: seq<Bit>)
    ensures |r| <= |bits|
    ensures forall j :: 0 <= j < |r| ==> r[j] in bits && !Excluded(r[j])
    ensures forall i :: 0 <= i < |bits| && !Excluded(bits[i]) ==> bits[i] in r
    decreases |bits|
  {
    if bits == [] then []
    else
      var front := Kept(bits[..|bits| - 1]);
      var last := bits[|bits| - 1];
      if Excluded(last) then front else front + [last]
  }

  /** The loop of the script: append each bit that is not excluded. It computes the reference
      filter, so everything proved of `Kept` holds of its result. */
  method FilterBits(bits: seq<Bit>) returns (kept: seq<Bit>)
    ensures kept == Kept(bits)
  {
    kept := [];
    var i := 0;
    while i < |bits|
      invariant 0 <= i <= |bits|
      invariant kept == Kept(bits[..i])
    {
      assert bits[..i + 1][..i] == bits[..i];
      if !Excluded(bits[i]) {
        kept := kept + [bits[i]];
      }
      i := i + 1;
    }
    assert bits[..|bits|] == bits;
  }

  /** The whole script: a fresh header, whatever the input's, over the filtered bits. */
  method FilterLibrary(lib: Library) returns (out: Library)
    ensures out.version == OutputVersion && out.embeddingModel == OutputModel
    ensures out.bits == Kept(lib.bits)
  {
    var kept := FilterBits(lib.bits);
    out := Library(OutputVersion, OutputModel, kept);
  }

  /** Appending one bit extends the filtered sequence by that bit exactly when it is kept. */
  lemma KeptAppend(bits: seq<Bit>, b: Bit)
    ensures Kept(bits + [b]) == Kept(bits) + (if Excluded(b) then [] else [b])
  {
    assert (bits + [b])[..|bits|] == bits;
  }

  /** Positions of the kept bits in the input, ascending. */
  function KeptIndices(bits: seq<Bit>): seq<nat>
    decreases |bits|
  {
    if bits == [] then []
    else
      var front := KeptIndices(bits[..|bits| - 1]);
      if Excluded(bits[|bits| - 1]) then front else front + [|bits| - 1]
  }

  /** Every kept position is in range, and the j-th output is the input bit at the j-th kept
      position: each kept bit is passed through unchanged. */
  lemma {:induction false} KeptAtIndices(bits: seq<Bit>)
    ensures |KeptIndices(bits)| == |Kept(bits)|
    ensures forall j :: 0 <= j < |KeptIndices(bits)| ==>
      KeptIndices(bits)[j] < |bits| && Kept(bits)[j] == bits[KeptIndices(bits)[j]]
    decreases |bits|
  {
    if bits != [] {
      var front := bits[..|bits| - 1];
      KeptAtIndices(front);
      var idx := KeptIndices(bits);
      var fidx := KeptIndices(front);
      forall j | 0 <= j < |idx|
        ensures idx[j] < |bits| && Kept(bits)[j] == bits[idx[j]]
      {
        if j < |fidx| {
          assert idx[j] == fidx[j];
          assert Kept(bits)[j] == Kept(front)[j];
          assert front[fidx[j]] == bits[fidx[j]];
        }
      }
    }
  }

  /** The kept positions ascend: the filter preserves the relative order of the bits. */
  lemma {:induction false} KeptIndicesAscend(bits: seq<Bit>)
    ensures forall j :: 0 <= j < |KeptIndices(bits)| ==> KeptIndices(bits)[j] < |bits|
    ensures forall j1, j2 :: 0 <= j1 < j2 < |KeptIndices(bits)| ==>
      KeptIndices(bits)[j1] < KeptIndices(bits)[j2]
    decreases |bits|
  {
    if bits != [] {
      KeptIndicesAscend(bits[..|bits| - 1]);
    }
  }

  /** The kept positions are exactly the positions of the bits that are not excluded. */
  lemma {:induction false} KeptIndicesExact(bits: seq<Bit>)
    ensures forall i :: 0 <= i < |bits| ==> (i in KeptIndices(bits) <==> !Excluded(bits[i]))
    decreases |bits|
  {
    if bits != [] {
      var front := bits[..|bits| - 1];
      KeptIndicesExact(front);
      KeptIndicesAscend(front);
      forall i | 0 <= i < |bits|
        ensures i in KeptIndices(bits) <==> !Excluded(bits[i])
      {
        if i < |front| {
          assert front[i] == bits[i];
        }
      }
    }
  }

  /** Number of bits the filter drops. */
  function ExcludedCount(bits: seq<Bit>): nat
    decreases |bits|
  {
    if bits == [] then 0
    else ExcludedCount(bits[..|bits| - 1]) + (if Excluded(bits[|bits| - 1]) then 1 else 0)
  }

  /** Of N bits of which M are excluded, exactly N - M remain. */
  lemma {:induction false} KeptLength(bits: seq<Bit>)
    ensures |Kept(bits)| == |bits| - ExcludedCount(bits)
    decreases |bits|
  {
    if bits != [] {
      KeptLength(bits[..|bits| - 1]);
    }
  }

  /** Filtering an already filtered sequence changes nothing. */
  lemma {:induction false} KeptIdempotent(bits: seq<Bit>)
    ensures Kept(Kept(bits)) == Kept(bits)
    decreases |bits|
  {
    if bits != [] {
      var front := bits[..|bits| - 1];
      var last := bits[|bits| - 1];
      KeptIdempotent(front);
      if !Excluded(last) {
        KeptAppend(Kept(front), last);
      }
    }
  }
}
