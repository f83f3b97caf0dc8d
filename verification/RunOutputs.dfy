/** Reading a run's result manifests against its checkpoint. */
module RunOutputs {
  import opened Sequences
  import opened Numbers

  datatype Phase = QueuePhase | AttemptPhase | RegistryPhase | ReceiptPhase

  datatype Kind = Enrichment | Attempt | Registry | Receipt

  type Bytes = string

  /** A batch result as its schema admits it. */
  datatype Result = Result(runId: string, phase: Phase, sequence: nat, previous: Option<string>, ordinals: seq<nat>,
                           rawKey: string, rawSha: string)

  /** Reading a stored object, its SHA-256, and the SHA-256 that a raw segment key names. */
  datatype Codec = Codec(parse: Bytes -> Option<Result>, sha: Bytes -> string, shaInKey: string -> Option<string>)

  datatype Frontier = Frontier(sequence: nat, chain: Option<string>)

  datatype Outputs = Outputs(enrichment: Frontier, attempt: Frontier, registry: Frontier, receipt: Frontier)

  datatype Checkpoint = Checkpoint(bitmap: seq<bv8>, total: nat, done: nat, nextOrdinal: nat, outputs: Outputs)

  /** What earlier runs completed: distinct queue ordinals, and the registry cursor. */
  datatype Baseline = Baseline(queue: seq<int>, registry: int)

  datatype Job = Job(codec: Codec, runId: string, state: Checkpoint, baseline: Baseline, exact: bool)

  datatype Manifest = Manifest(bytes: Bytes, result: Result, sha: string)

  datatype Error =
    | InvalidQueueBaseline
    | InvalidRegistryBaseline
    | BaselineNotCompleted
    | Malformed
    | RunMismatch
    | Uncheckpointed(kind: Kind)
    | BrokenChain(kind: Kind)
    | QueueOrdinal
    | RegistryOrdinal
    | AttemptOrdinal
    | ReceiptOrdinals
    | NoShaInKey
    | ShaMismatch
    | QueueCount
    | RegistryCursor
    | Missing(kind: Kind)

  datatype Outcome<+T> = Ok(value: T) | Fail(error: Error)

  const NO_OUTPUT := Frontier(0, None)
  const NO_OUTPUTS := Outputs(NO_OUTPUT, NO_OUTPUT, NO_OUTPUT, NO_OUTPUT)

  function KindOf(phase: Phase): Kind {
    match phase
    case QueuePhase => Enrichment
    case AttemptPhase => Attempt
    case RegistryPhase => Registry
    case ReceiptPhase => Receipt
  }

  function FrontierOf(outputs: Outputs, kind: Kind): Frontier {
    match kind
    case Enrichment => outputs.enrichment
    case Attempt => outputs.attempt
    case Registry => outputs.registry
    case Receipt => outputs.receipt
  }

  function WithFrontier(outputs: Outputs, kind: Kind, frontier: Frontier): Outputs {
    match kind
    case Enrichment => outputs.(enrichment := frontier)
    case Attempt => outputs.(attempt := frontier)
    case Registry => outputs.(registry := frontier)
    case Receipt => outputs.(receipt := frontier)
  }

  /** Bits beyond the end of the bitmap read as unset. */
  predicate Completed(bitmap: seq<bv8>, ordinal: nat) {
    ordinal / 8 < |bitmap| && bitmap[ordinal / 8] & ((1 as bv8) << (ordinal % 8)) != 0
  }

  // Baselines -------------------------------------------------------------------------------------------------

  function CheckBaselineOrdinals(state: Checkpoint, ordinals: seq<int>): Option<Error> {
    if ordinals == [] then None
    else if !(0 <= ordinals[0] <= MAX_SAFE_INTEGER) || ordinals[0] >= state.total then Some(InvalidQueueBaseline)
    else if !Completed(state.bitmap, ordinals[0]) then Some(BaselineNotCompleted)
    else CheckBaselineOrdinals(state, ordinals[1..])
  }

  function CheckBaseline(state: Checkpoint, baseline: Baseline): Option<Error> {
    if |baseline.queue| > state.done then Some(InvalidQueueBaseline)
    else if !(0 <= baseline.registry <= MAX_SAFE_INTEGER) || baseline.registry > state.nextOrdinal then
      Some(InvalidRegistryBaseline)
    else CheckBaselineOrdinals(state, baseline.queue)
  }

  method ValidateBaseline(state: Checkpoint, baseline: Baseline) returns (error: Option<Error>)
    ensures error == CheckBaseline(state, baseline)
  {
    if |baseline.queue| > state.done {
      return Some(InvalidQueueBaseline);
    }
    if baseline.registry < 0 || baseline.registry > MAX_SAFE_INTEGER || baseline.registry > state.nextOrdinal {
      return Some(InvalidRegistryBaseline);
    }
    for i := 0 to |baseline.queue|
      invariant CheckBaselineOrdinals(state, baseline.queue) == CheckBaselineOrdinals(state, baseline.queue[i..])
    {
      var ordinal := baseline.queue[i];
      if ordinal < 0 || ordinal > MAX_SAFE_INTEGER || ordinal >= state.total {
        return Some(InvalidQueueBaseline);
      }
      if !Completed(state.bitmap, ordinal) {
        return Some(BaselineNotCompleted);
      }
      assert baseline.queue[i..][1..] == baseline.queue[i + 1..];
    }
    return None;
  }

  // Claims ------------------------------------------------------------------------------------------------------

  /** An ordinal of this run that the checkpoint records as completed. */
  predicate Claimable(job: Job, ordinal: nat) {
    ordinal !in job.baseline.queue && ordinal < job.state.total && Completed(job.state.bitmap, ordinal)
  }

  function ClaimQueue(job: Job, ordinals: seq<nat>, completed: set<nat>): Outcome<set<nat>> {
    if ordinals == [] then Ok(completed)
    else if !Claimable(job, ordinals[0]) || ordinals[0] in completed then Fail(QueueOrdinal)
    else ClaimQueue(job, ordinals[1..], completed + {ordinals[0]})
  }

  predicate Contiguous(first: int, ordinals: seq<nat>) {
    forall i | 0 <= i < |ordinals| :: ordinals[i] == first + i
  }

  predicate Below(ordinals: seq<nat>, bound: int) {
    forall i | 0 <= i < |ordinals| :: ordinals[i] < bound
  }

  datatype Progress = Progress(completed: set<nat>, nextRegistry: int, chains: Outputs, raw: set<string>)

  /** What a result may claim, and the queue ordinals claimed with it. */
  function Claim(job: Job, result: Result, p: Progress): Outcome<set<nat>> {
    match result.phase
    case QueuePhase => ClaimQueue(job, result.ordinals, p.completed)
    case RegistryPhase =>
      if Contiguous(p.nextRegistry, result.ordinals) && Below(result.ordinals, job.state.nextOrdinal)
      then Ok(p.completed) else Fail(RegistryOrdinal)
    case AttemptPhase => if Below(result.ordinals, job.state.total) then Ok(p.completed) else Fail(AttemptOrdinal)
    case ReceiptPhase => if result.ordinals == [] then Ok(p.completed) else Fail(ReceiptOrdinals)
  }

  method ValidateClaims(job: Job, result: Result, p: Progress) returns (claimed: Outcome<set<nat>>)
    ensures claimed == Claim(job, result, p)
  {
    var ordinals := result.ordinals;
    match result.phase
    case QueuePhase =>
      var completed := p.completed;
      for i := 0 to |ordinals|
        invariant ClaimQueue(job, ordinals, p.completed) == ClaimQueue(job, ordinals[i..], completed)
      {
        if !Claimable(job, ordinals[i]) || ordinals[i] in completed {
          return Fail(QueueOrdinal);
        }
        completed := completed + {ordinals[i]};
        assert ordinals[i..][1..] == ordinals[i + 1..];
      }
      return Ok(completed);
    case RegistryPhase =>
      for i := 0 to |ordinals|
        invariant Contiguous(p.nextRegistry, ordinals[..i]) && Below(ordinals[..i], job.state.nextOrdinal)
      {
        if ordinals[i] != p.nextRegistry + i || ordinals[i] >= job.state.nextOrdinal {
          return Fail(RegistryOrdinal);
        }
      }
      assert ordinals[..|ordinals|] == ordinals;
      return Ok(p.completed);
    case AttemptPhase =>
      for i := 0 to |ordinals|
        invariant Below(ordinals[..i], job.state.total)
      {
        if ordinals[i] >= job.state.total {
          return Fail(AttemptOrdinal);
        }
      }
      assert ordinals[..|ordinals|] == ordinals;
      return Ok(p.completed);
    case ReceiptPhase =>
      return if ordinals == [] then Ok(p.completed) else Fail(ReceiptOrdinals);
  }

  // Results -----------------------------------------------------------------------------------------------------

  predicate Within(job: Job, result: Result) {
    result.sequence <= FrontierOf(job.state.outputs, KindOf(result.phase)).sequence
  }

  predicate Extends(chains: Outputs, result: Result) {
    var before := FrontierOf(chains, KindOf(result.phase));
    result.sequence == before.sequence + 1 && result.previous == before.chain
  }

  function Advanced(p: Progress, m: Manifest, completed: set<nat>): Progress {
    Progress(completed,
             if m.result.phase.RegistryPhase? then p.nextRegistry + |m.result.ordinals| else p.nextRegistry,
             WithFrontier(p.chains, KindOf(m.result.phase), Frontier(m.result.sequence, Some(m.sha))),
             p.raw + {m.result.rawKey})
  }

  /** One manifest after those that gave progress `p`. */
  function Accept(job: Job, p: Progress, m: Manifest): Outcome<Progress> {
    var kind := KindOf(m.result.phase);
    if m.result.runId != job.runId then Fail(RunMismatch)
    else if !Within(job, m.result) then if job.exact then Fail(Uncheckpointed(kind)) else Ok(p)
    else if !Extends(p.chains, m.result) then Fail(BrokenChain(kind))
    else
      match Claim(job, m.result, p)
      case Fail(error) => Fail(error)
      case Ok(completed) =>
        var sha := job.codec.shaInKey(m.result.rawKey);
        if sha.None? then Fail(NoShaInKey)
        else if m.result.rawSha != sha.value then Fail(ShaMismatch)
        else Ok(Advanced(p, m, completed))
  }

  function Start(job: Job): Progress { Progress({}, job.baseline.registry, NO_OUTPUTS, {}) }

  function AcceptAll(job: Job, s: seq<Manifest>): Outcome<Progress> {
    if s == [] then Ok(Start(job))
    else
      match AcceptAll(job, s[..|s| - 1])
      case Fail(error) => Fail(error)
      case Ok(p) => Accept(job, p, s[|s| - 1])
  }

  function Read(codec: Codec, bytes: Bytes): Option<Manifest> {
    match codec.parse(bytes)
    case None => None
    case Some(result) => Some(Manifest(bytes, result, codec.sha(bytes)))
  }

  function ReadAll(codec: Codec, objects: seq<Bytes>): Option<seq<Manifest>> {
    if objects == [] then Some([])
    else
      match (ReadAll(codec, objects[..|objects| - 1]), Read(codec, objects[|objects| - 1]))
      case (Some(before), Some(m)) => Some(before + [m])
      case _ => None
  }

  /** The first kind whose chain does not end where the checkpoint says. */
  function MissingKind(expected: Outputs, actual: Outputs): Option<Kind> {
    if actual.enrichment != expected.enrichment then Some(Enrichment)
    else if actual.attempt != expected.attempt then Some(Attempt)
    else if actual.registry != expected.registry then Some(Registry)
    else if actual.receipt != expected.receipt then Some(Receipt)
    else None
  }

  function Finish(job: Job, p: Progress): Outcome<set<string>> {
    if |p.completed| != job.state.done - |job.baseline.queue| then Fail(QueueCount)
    else if p.nextRegistry != job.state.nextOrdinal then Fail(RegistryCursor)
    else
      match MissingKind(job.state.outputs, p.chains)
      case Some(kind) => Fail(Missing(kind))
      case None => Ok(p.raw)
  }

  function ReadKeys(job: Job, objects: seq<Bytes>): Outcome<set<string>> {
    var invalid := CheckBaseline(job.state, job.baseline);
    if invalid.Some? then Fail(invalid.value)
    else
      match ReadAll(job.codec, objects)
      case None => Fail(Malformed)
      case Some(manifests) =>
        match AcceptAll(job, manifests)
        case Fail(error) => Fail(error)
        case Ok(p) => Finish(job, p)
  }

  lemma FirstFailureStays(job: Job, s: seq<Manifest>, n: nat)
    requires n <= |s| && AcceptAll(job, s[..n]).Fail?
    ensures AcceptAll(job, s) == AcceptAll(job, s[..n])
    decreases |s| - n
  {
    if n == |s| {
      assert s[..n] == s;
    } else {
      assert s[..n + 1][..n] == s[..n];
      FirstFailureStays(job, s, n + 1);
    }
  }

  lemma MalformedStays(codec: Codec, objects: seq<Bytes>, n: nat)
    requires n <= |objects| && ReadAll(codec, objects[..n]).None?
    ensures ReadAll(codec, objects).None?
    decreases |objects| - n
  {
    if n == |objects| {
      assert objects[..n] == objects;
    } else {
      assert objects[..n + 1][..n] == objects[..n];
      MalformedStays(codec, objects, n + 1);
    }
  }

  method ReadManifests(codec: Codec, objects: seq<Bytes>) returns (manifests: Option<seq<Manifest>>)
    ensures manifests == ReadAll(codec, objects)
  {
    var done: seq<Manifest> := [];
    for i := 0 to |objects|
      invariant ReadAll(codec, objects[..i]) == Some(done)
    {
      assert objects[..i + 1][..i] == objects[..i];
      var m := Read(codec, objects[i]);
      if m.None? {
        MalformedStays(codec, objects, i + 1);
        return None;
      }
      done := done + [m.value];
    }
    assert objects[..|objects|] == objects;
    return Some(done);
  }

  method ReadRunOutputKeys(job: Job, objects: seq<Bytes>) returns (keys: Outcome<set<string>>)
    ensures keys == ReadKeys(job, objects)
  {
    hide Accept, CheckBaseline, ReadAll;
    var invalid := ValidateBaseline(job.state, job.baseline);
    if invalid.Some? {
      return Fail(invalid.value);
    }
    var read := ReadManifests(job.codec, objects);
    if read.None? {
      return Fail(Malformed);
    }
    var manifests := read.value;
    var p := Start(job);
    for i := 0 to |manifests|
      invariant AcceptAll(job, manifests[..i]) == Ok(p)
    {
      assert manifests[..i + 1][..i] == manifests[..i];
      var next := AcceptOne(job, p, manifests[i]);
      if next.Fail? {
        FirstFailureStays(job, manifests, i + 1);
        return Fail(next.error);
      }
      p := next.value;
    }
    assert manifests[..|manifests|] == manifests;
    return Finish(job, p);
  }

  method AcceptOne(job: Job, p: Progress, m: Manifest) returns (next: Outcome<Progress>)
    ensures next == Accept(job, p, m)
  {
    if m.result.runId != job.runId {
      return Fail(RunMismatch);
    }
    if !Within(job, m.result) {
      return if job.exact then Fail(Uncheckpointed(KindOf(m.result.phase))) else Ok(p);
    }
    if !Extends(p.chains, m.result) {
      return Fail(BrokenChain(KindOf(m.result.phase)));
    }
    var claimed := ValidateClaims(job, m.result, p);
    if claimed.Fail? {
      return Fail(claimed.error);
    }
    var sha := job.codec.shaInKey(m.result.rawKey);
    if sha.None? {
      return Fail(NoShaInKey);
    }
    return if m.result.rawSha != sha.value then Fail(ShaMismatch) else Ok(Advanced(p, m, claimed.value));
  }
}
