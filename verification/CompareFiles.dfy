/** The chunked comparison of two files. */
module CompareFiles {
  import opened Options

  type Byte = bv8

  const CHUNK_SIZE := 4096

  /** An open file; a read may return fewer bytes than asked for, but none only at the end. */
  class File {
    const bytes: seq<Byte>
    var offset: nat

    ghost predicate Valid()
      reads this
    {
      offset <= |bytes|
    }

    constructor (bytes: seq<Byte>)
      ensures Valid() && this.bytes == bytes && offset == 0
    {
      this.bytes, offset := bytes, 0;
    }

    method ReadSome(most: nat) returns (chunk: seq<Byte>)
      requires Valid() && most > 0
      modifies this
      ensures Valid() && offset == old(offset) + |chunk| && chunk == bytes[old(offset)..offset]
      ensures |chunk| <= most && (chunk == [] <==> old(offset) == |bytes|)
    {
      if offset == |bytes| {
        return [];
      }
      var n :| 1 <= n <= most && offset + n <= |bytes|;
      chunk := bytes[offset..offset + n];
      offset := offset + n;
    }

    /** None if the file ends before `n` bytes. */
    method ReadExact(n: nat) returns (chunk: Option<seq<Byte>>)
      requires Valid()
      modifies this
      ensures Valid()
      ensures chunk.Some? <==> old(offset) + n <= |bytes|
      ensures chunk.Some? ==> offset == old(offset) + n && chunk.value == bytes[old(offset)..offset]
    {
      if offset + n <= |bytes| {
        chunk := Some(bytes[offset..offset + n]);
        offset := offset + n;
      } else {
        chunk := None;
        offset := |bytes|;
      }
    }
  }

  /** What is logged about the comparison. */
  datatype Verdict = Identical | SecondIsLonger | SecondIsShorter | DifferAt(position: nat)

  ghost predicate IsFirstDifference(a: seq<Byte>, b: seq<Byte>, p: nat) {
    p < |a| && p < |b| && a[..p] == b[..p] && a[p] != b[p]
  }

  method FirstDifference(a: seq<Byte>, b: seq<Byte>) returns (p: nat)
    requires |a| == |b| && a != b
    ensures IsFirstDifference(a, b, p)
  {
    p := 0;
    while a[p] == b[p]
      invariant p < |a| && a[..p] == b[..p]
      decreases |a| - p
    {
      if p + 1 == |a| {
        assert a[..p + 1] == a && b[..p + 1] == b;
      }
      p := p + 1;
    }
  }

  /**
   True exactly for equal contents, whatever the sizes of the reads.  A reported position is the first difference;
   a file reported as longer continues the other, one reported as shorter is only known to have fewer bytes.
   */
  method CompareContents(a: seq<Byte>, b: seq<Byte>) returns (same: bool, verdict: Verdict)
    ensures same <==> a == b
    ensures same <==> verdict == Identical
    ensures verdict.DifferAt? ==> IsFirstDifference(a, b, verdict.position)
    ensures verdict == SecondIsLonger <==> |a| < |b| && a == b[..|a|]
    ensures verdict == SecondIsShorter ==> |b| < |a|
  {
    var f1 := new File(a);
    var f2 := new File(b);
    var pos := 0;
    while true
      invariant f1.Valid() && f2.Valid() && f1.bytes == a && f2.bytes == b
      invariant pos == f1.offset == f2.offset && a[..pos] == b[..pos]
      decreases |a| - pos
    {
      var chunk := f1.ReadSome(CHUNK_SIZE);
      if chunk == [] {
        var more := f2.ReadSome(CHUNK_SIZE);
        assert a == b[..pos];
        if more != [] {
          return false, SecondIsLonger;
        }
        return true, Identical;
      }
      var other := f2.ReadExact(|chunk|);
      if other.None? {
        return false, SecondIsShorter;
      }
      if chunk != other.value {
        var p := FirstDifference(chunk, other.value);
        assert a[..pos + p] == a[..pos] + chunk[..p] && b[..pos + p] == b[..pos] + other.value[..p];
        return false, DifferAt(pos + p);
      }
      assert a[..pos + |chunk|] == a[..pos] + chunk && b[..pos + |chunk|] == b[..pos] + chunk;
      pos := pos + |chunk|;
    }
  }
}
