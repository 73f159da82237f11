/** Reading pipes: which are open, and draining one through the shared read buffer. */
module Drains {
  import opened PdoFrames

  const RAW_SIZE: int := 512

  // ---------- Opening ----------

  /** The descriptors of a robot's pipes; a negative one marks a pipe that is not there. */
  class XddpReader {
    const dofs: nat
    const fds: array<int>

    constructor (dofs: nat)
      ensures this.dofs == dofs && fds.Length == dofs && fresh(fds)
      ensures forall i :: 0 <= i < dofs ==> fds[i] == -1
    {
      this.dofs := dofs;
      fds := new int[dofs](_ => -1);
    }

    /** `results` are what the operating system answers for the pipes in order.  Optional
        pipes that are missing stay closed; otherwise the first missing pipe ends the call. */
    method Open(results: seq<int>, optional: bool) returns (ok: bool)
      requires |results| == dofs == fds.Length
      modifies fds
      ensures ok <==> optional || forall i :: 0 <= i < dofs ==> results[i] >= 0
      ensures ok ==> fds[..] == results
      ensures !ok ==> exists k :: 0 <= k < dofs && results[k] < 0 && fds[..k + 1] == results[..k + 1]
                                  && fds[k + 1..] == old(fds[..])[k + 1..]
                                  && forall i :: 0 <= i < k ==> results[i] >= 0
    {
      for i := 0 to dofs
        invariant fds[..i] == results[..i] && fds[i..] == old(fds[..])[i..]
        invariant optional || forall j :: 0 <= j < i ==> results[j] >= 0
      {
        fds[i] := results[i];
        if fds[i] < 0 {
          if optional {
            continue;
          }
          assert fds[..i + 1] == results[..i + 1] && fds[i + 1..] == old(fds[..])[i + 1..];
          return false;
        }
      }
      assert fds[..] == fds[..dofs] && results[..dofs] == results;
      return true;
    }

    predicate IsOpen(i: nat)
      requires i < fds.Length
      reads fds
    {
      fds[i] >= 0
    }

    /** The joints whose pipes are watched: those open whose registration succeeds. */
    method Register(accepted: seq<bool>) returns (watched: set<nat>)
      requires |accepted| == fds.Length
      ensures watched == set i: nat | i < fds.Length && fds[i] >= 0 && accepted[i]
    {
      watched := {};
      for i := 0 to fds.Length
        invariant watched == set j: nat | j < i && fds[j] >= 0 && accepted[j]
      {
        if !IsOpen(i) {
          continue;
        }
        if accepted[i] {
          watched := watched + {i};
        }
      }
    }
  }

  // ---------- Draining ----------

  /** The last frame of a drain: of the reads up to the first that delivers nothing. */
  ghost function LastFrame(chunks: seq<seq<Byte>>): seq<Byte>
  {
    if chunks == [] || chunks[0] == [] then
      []
    else
      var rest := LastFrame(chunks[1..]);
      if rest == [] then chunks[0] else rest
  }

  /** It is the read before the first that delivers nothing. */
  lemma {:induction false} LastFrameMeaning(chunks: seq<seq<Byte>>, k: nat)
    requires k <= |chunks| && forall i :: 0 <= i < k ==> chunks[i] != []
    requires k == |chunks| || chunks[k] == []
    ensures LastFrame(chunks) == if k == 0 then [] else chunks[k - 1]
  {
    if k == 0 {
    } else {
      LastFrameMeaning(chunks[1..], k - 1);
    }
  }

  lemma NonEmptyLast(chunks: seq<seq<Byte>>)
    requires chunks != [] && chunks[0] != []
    ensures LastFrame(chunks) != []
  {
  }

  /** Read k is the last that delivers something, counting from one. */
  ghost predicate LastRead(chunks: seq<seq<Byte>>, k: nat)
  {
    && 1 <= k <= |chunks| && (k == |chunks| || chunks[k] == [])
    && forall i :: 0 <= i < k ==> chunks[i] != []
  }

  lemma {:induction false} LastReadExists(chunks: seq<seq<Byte>>)
    requires LastFrame(chunks) != []
    ensures exists k: nat :: LastRead(chunks, k)
  {
    if chunks == [] || chunks[0] == [] {
    } else if LastFrame(chunks[1..]) == [] {
      if |chunks| > 1 && chunks[1] != [] {
        NonEmptyLast(chunks[1..]);
      }
      assert LastRead(chunks, 1);
    } else {
      LastReadExists(chunks[1..]);
      var k: nat :| LastRead(chunks[1..], k);
      assert forall i :: 1 <= i < |chunks| ==> chunks[i] == chunks[1..][i - 1];
      assert LastRead(chunks, k + 1);
    }
  }

  ghost predicate FitRaw(chunks: seq<seq<Byte>>)
  {
    forall k :: 0 <= k < |chunks| ==> |chunks[k]| <= RAW_SIZE
  }

  /** One read: the bytes go to the front of the buffer, the rest of it stays. */
  method Read(raw: array<Byte>, chunk: seq<Byte>) returns (r: int)
    requires |chunk| <= raw.Length
    modifies raw
    ensures r == |chunk|
    ensures raw[..r] == chunk && raw[r..] == old(raw[..])[r..]
  {
    for i := 0 to |chunk|
      invariant raw[..i] == chunk[..i] && raw[i..] == old(raw[..])[i..]
    {
      raw[i] := chunk[i];
    }
    assert chunk[..|chunk|] == chunk;
    r := |chunk|;
  }

  /** Reads until nothing comes; the front of the buffer then holds the last frame, whatever
      was in the buffer before. */
  method Drain(raw: array<Byte>, chunks: seq<seq<Byte>>) returns (last: int)
    requires raw.Length == RAW_SIZE && FitRaw(chunks)
    modifies raw
    ensures 0 <= last <= 512
    ensures raw[..last] == LastFrame(chunks)
  {
    last := 0;
    var k := 0;
    while true
      invariant 0 <= k <= |chunks| && 0 <= last <= RAW_SIZE
      invariant LastFrame(chunks) == if LastFrame(chunks[k..]) == [] then raw[..last] else LastFrame(chunks[k..])
      decreases |chunks| - k
    {
      if k == |chunks| {
        break;
      }
      assert chunks[k..][0] == chunks[k] && chunks[k..][1..] == chunks[k + 1..];
      var r := Read(raw, chunks[k]);
      if r <= 0 {
        break;
      }
      last := r;
      k := k + 1;
    }
  }
}
