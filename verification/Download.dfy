/** Resumable downloads of the index database. */
module Download {
  import opened Sequences
  import opened Numbers

  type Bytes = seq<bv8>

  const ATTEMPTS := 3

  /** Equal path, size and entity tag mean equal bytes. */
  datatype Identity = Identity(path: string, size: nat, etag: string)

  datatype Lookup = LookupFailed | Missing | Found(identity: Identity)

  /** A response streams the rest of the object in chunks of the given sizes, as far as the
      object goes, and then ends or breaks. */
  datatype Response = RequestFailed | Gone | Stream(chunks: seq<nat>, breaks: bool)

  /** What happens in one attempt. `writes` are the bytes that successive file writes accept;
      when there are no more of them, writing fails. */
  datatype Attempt = Attempt(lookup: Lookup, reportFails: bool, response: Response, writes: seq<nat>)

  datatype Outcome = Complete | NotFound | Failed

  /** The object with what was there before in front. */
  function Resumed(before: Bytes, whole: Bytes): (r: Bytes)
    requires |before| <= |whole|
    ensures |r| == |whole|
  {
    before + whole[|before|..]
  }

  /** Resuming gives the object exactly when what was there is a prefix of it. */
  lemma ResumedIsObject(before: Bytes, whole: Bytes)
    requires |before| <= |whole|
    ensures Resumed(before, whole) == whole <==> before <= whole
  {
    assert Resumed(before, whole)[..|before|] == before;
    if before <= whole {
      assert whole == before + whole[|before|..];
    }
  }

  /** Part of an attempt followed by another one resumes to the same bytes. */
  lemma ResumedAgain(before: Bytes, whole: Bytes, n: nat)
    requires |before| <= n <= |whole|
    ensures Resumed(Resumed(before, whole)[..n], whole) == Resumed(before, whole)
  {
    var all := Resumed(before, whole);
    assert all == all[..n] + all[n..];
    assert all[n..] == whole[n..];
  }

  lemma StartsWithBefore(before: Bytes, whole: Bytes)
    requires |before| <= |whole|
    ensures |Resumed(before, whole)| == |whole| && Resumed(before, whole)[..|before|] == before
  {
  }

  lemma GrewMore(before: Bytes, held: Bytes, now: Bytes, whole: Bytes)
    requires |before| <= |held| <= |now| <= |whole|
    requires held == Resumed(before, whole)[..|held|] && now == Resumed(held, whole)[..|now|]
    ensures now == Resumed(before, whole)[..|now|]
    ensures |now| == |whole| ==> now == Resumed(before, whole)
  {
    ResumedAgain(before, whole, |held|);
    assert Resumed(before, whole)[..|whole|] == Resumed(before, whole);
  }

  function Sum(sizes: seq<nat>): nat { if sizes == [] then 0 else Sum(sizes[..|sizes| - 1]) + sizes[|sizes| - 1] }

  /** Every write accepts something, and there are enough of them for `n` bytes. */
  predicate Roomy(writes: seq<nat>, n: nat) { |writes| >= n && forall i | 0 <= i < |writes| :: writes[i] > 0 }

  /** The attempt finds the object, and its response streams `n` bytes that the disk takes. */
  predicate Carries(attempt: Attempt, n: nat) {
    attempt.lookup.Found? && !attempt.reportFails && attempt.response.Stream? && !attempt.response.breaks &&
    Sum(attempt.response.chunks) >= n && Roomy(attempt.writes, n)
  }

  /** Something other than missing bytes went wrong in the attempt. */
  predicate Hindered(attempt: Attempt) {
    attempt.lookup.LookupFailed? || attempt.reportFails || !attempt.response.Stream? || attempt.response.breaks
  }

  /** Some attempt found no file, or another one. */
  predicate Changed(attempts: seq<Attempt>, remote: Option<Identity>) {
    exists i :: 0 <= i < |attempts| &&
                (attempts[i].lookup.Missing? ||
                 (attempts[i].lookup.Found? && remote != Some(attempts[i].lookup.identity)))
  }

  class LocalFile {
    var content: Option<Bytes>

    constructor ()
      ensures content == None
    {
      content := None;
    }

    function Held(): Bytes
      reads this
    {
      if content.Some? then content.value else []
    }

    /** Writes may be short; one that accepts nothing fails. */
    method WriteAllBytes(bytes: Bytes, writes: seq<nat>) returns (left: seq<nat>, ok: bool)
      requires content.Some?
      modifies this
      ensures content.Some? && exists n :: 0 <= n <= |bytes| && content.value == old(content.value) + bytes[..n]
      ensures if ok then content.value == old(content.value) + bytes
              else (left == [] || left[0] == 0) && |content.value| < |old(content.value)| + |bytes|
      ensures |writes| - |content.value| + |old(content.value)| <= |left| <= |writes|
      ensures left == writes[|writes| - |left|..]
    {
      left := writes;
      var offset := 0;
      while offset < |bytes|
        invariant 0 <= offset <= |bytes|
        invariant content.Some? && content.value == old(content.value) + bytes[..offset]
        invariant |writes| - offset <= |left| <= |writes| && left == writes[|writes| - |left|..]
      {
        if left == [] || left[0] == 0 {
          return left, false;
        }
        var accepted := Least(left[0], |bytes| - offset);
        content := Some(content.value + bytes[offset..offset + accepted]);
        assert bytes[..offset + accepted] == bytes[..offset] + bytes[offset..offset + accepted];
        offset := offset + accepted;
        left := left[1..];
      }
      assert bytes[..|bytes|] == bytes;
      return left, true;
    }

    /** The file holds what it held before and more of the object. */
    ghost predicate Grew(before: Bytes, whole: Bytes)
      reads this
      requires |before| <= |whole|
    {
      |before| <= |Held()| <= |whole| && Held() == Resumed(before, whole)[..|Held()|]
    }

    method WriteTail(whole: Bytes, response: Response, writes: seq<nat>) returns (ok: bool)
      requires response.Stream? && |Held()| <= |whole|
      modifies this
      ensures content.Some? && Grew(old(Held()), whole)
      ensures !ok ==> response.breaks || |Held()| < |whole|
      ensures Roomy(writes, |whole| - |old(Held())|) ==>
                ok == !response.breaks && |Held()| == Least(|whole|, |old(Held())| + Sum(response.chunks))
    {
      hide Resumed;
      ghost var before := Held();
      if |Held()| == 0 {
        content := Some([]);
      }
      StartsWithBefore(before, whole);
      var left := writes;
      ghost var roomy := Roomy(writes, |whole| - |before|);
      for i := 0 to |response.chunks|
        invariant content.Some? && Grew(before, whole)
        invariant roomy ==>
                    Roomy(left, |whole| - |Held()|) && |Held()| == Least(|whole|, |before| + Sum(response.chunks[..i]))
      {
        assert response.chunks[..i + 1][..i] == response.chunks[..i];
        var start := |content.value|;
        var chunk := whole[start..start + Least(response.chunks[i], |whole| - start)];
        ghost var held := content.value;
        left, ok := WriteAllBytes(chunk, left);
        MoreOfTheSame(before, whole, held, chunk, content.value);
        if !ok {
          return false;
        }
      }
      assert response.chunks[..|response.chunks|] == response.chunks;
      return !response.breaks;
    }

    /** One attempt after the remote file was identified. */
    method AppendRemoteFile(attempt: Attempt, whole: Bytes) returns (ok: bool)
      modifies this
      ensures |old(Held())| <= |whole| ==> Grew(old(Held()), whole)
      ensures |old(Held())| > |whole| ==> !ok && content == old(content)
      ensures ok ==> |Held()| == |whole|
      ensures whole == [] ==> content == old(content)
      ensures whole != [] && ok ==> content.Some?
      ensures !ok ==> |Held()| != |whole| || Hindered(attempt)
      ensures |old(Held())| <= |whole| && Carries(attempt, |whole|) ==> ok
      ensures |old(Held())| < |whole| && !attempt.reportFails && attempt.response.Stream? &&
              Roomy(attempt.writes, |whole| - |old(Held())|) ==>
                |Held()| == Least(|whole|, |old(Held())| + Sum(attempt.response.chunks))
    {
      hide Resumed, Sum;
      if |Held()| > |whole| {
        return false;
      }
      StartsWithBefore(Held(), whole);
      if attempt.reportFails {
        return false;
      }
      if |Held()| == |whole| {
        return true;
      }
      if !attempt.response.Stream? {
        return false;
      }
      ok := WriteTail(whole, attempt.response, attempt.writes);
      return ok && |Held()| == |whole|;
    }

    /** Up to three attempts. Everything held is always what was there before followed by
        bytes of the object at their places; a true result means that nothing is missing. */
    method DownloadLargeFile(attempts: seq<Attempt>, whole: Identity -> Bytes)
      returns (outcome: Outcome, ghost remote: Option<Identity>)
      requires |attempts| == ATTEMPTS
      requires forall id :: |whole(id)| == id.size
      modifies this
      ensures remote.None? ==> content == old(content) && outcome != Complete
      ensures remote.Some? && |old(Held())| <= remote.value.size ==> Grew(old(Held()), whole(remote.value))
      ensures remote.Some? && |old(Held())| > remote.value.size ==> content == old(content) && outcome != Complete
      ensures outcome == Complete ==> remote.Some? && Held() == Resumed(old(Held()), whole(remote.value))
      ensures outcome == NotFound ==> remote.None? && exists i :: 0 <= i < ATTEMPTS && attempts[i].lookup.Missing?
      ensures outcome == Failed ==>
                Changed(attempts, remote) || Hindered(attempts[ATTEMPTS - 1]) || remote.None? ||
                |Held()| != remote.value.size
      ensures remote.Some? && |old(Held())| <= remote.value.size && !Changed(attempts, remote) ==>
                (exists i :: 0 <= i < ATTEMPTS && Carries(attempts[i], remote.value.size)) ==>
                outcome == Complete
      ensures forall i | 0 <= i < ATTEMPTS && attempts[i].lookup.Found? &&
                         (forall j | 0 <= j < i :: attempts[j].lookup.LookupFailed?) ::
                remote == Some(attempts[i].lookup.identity)
      ensures forall i | 0 <= i < ATTEMPTS && attempts[i].lookup.Missing? &&
                         (forall j | 0 <= j < i :: attempts[j].lookup.LookupFailed?) ::
                outcome == NotFound
      ensures outcome == Complete && old(content).None? ==>
                content == if remote.value.size == 0 then None else Some(whole(remote.value))
    {
      hide Resumed, Roomy, Sum;
      var identity: Option<Identity> := None;
      remote := None;
      ghost var before := Held();
      for i := 0 to ATTEMPTS
        invariant remote == identity
        invariant identity.None? ==> content == old(content)
        invariant identity.Some? && |before| <= identity.value.size ==> Grew(before, whole(identity.value))
        invariant identity.Some? && |before| > identity.value.size ==> content == old(content)
        invariant identity.Some? && identity.value.size == 0 ==> content == old(content)
        invariant forall j | 0 <= j < i ::
                    if attempts[j].lookup.Found? then identity == Some(attempts[j].lookup.identity)
                    else attempts[j].lookup.LookupFailed?
        invariant identity.Some? <==> exists j :: 0 <= j < i && attempts[j].lookup.Found?
        invariant identity.Some? && |before| <= identity.value.size ==>
                    forall j | 0 <= j < i :: !Carries(attempts[j], identity.value.size)
        invariant i > 0 && remote.Some? ==> Hindered(attempts[i - 1]) || |Held()| != remote.value.size
      {
        var attempt := attempts[i];
        match attempt.lookup
        case LookupFailed =>
        case Missing =>
          return if identity.None? then NotFound else Failed, remote;
        case Found(current) =>
          if identity.None? {
            identity, remote := Some(current), Some(current);
            if |before| <= current.size {
              StartsWithBefore(before, whole(current));
            }
          } else if identity.value != current {
            return Failed, remote;
          }
          ghost var held := Held();
          var ok := AppendRemoteFile(attempt, whole(current));
          if |before| <= current.size {
            GrewMore(before, held, Held(), whole(current));
            ResumedIsObject(before, whole(current));
          }
          if ok {
            return Complete, remote;
          }
      }
      return Failed, remote;
    }
  }

  lemma MoreOfTheSame(before: Bytes, whole: Bytes, held: Bytes, chunk: Bytes, after: Bytes)
    requires |before| <= |held| <= |whole| && held == Resumed(before, whole)[..|held|]
    requires chunk <= whole[|held|..]
    requires exists n :: 0 <= n <= |chunk| && after == held + chunk[..n]
    ensures |before| <= |after| <= |whole| && after == Resumed(before, whole)[..|after|]
  {
    var n :| 0 <= n <= |chunk| && after == held + chunk[..n];
    assert chunk[..n] == whole[|held|..|held| + n];
    assert Resumed(before, whole)[..|held| + n] == Resumed(before, whole)[..|held|] + whole[|held|..|held| + n];
  }
}
