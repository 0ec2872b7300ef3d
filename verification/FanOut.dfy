/** Concurrent fan-out: how the devices are split among goroutines, and why the
    schedule does not matter. */
module FanOut {
  import opened Kube
  import opened Placement

  // ------------------------------------------------------------------ splitting

  function Flatten<T>(chunks: seq<seq<T>>): seq<T> {
    if chunks == [] then [] else Flatten(chunks[..|chunks| - 1]) + chunks[|chunks| - 1]
  }

  /** The size of chunk `i`: the first `len % n` chunks get one more. */
  function ChunkSize(len: nat, n: nat, i: nat): nat
    requires n > 0
  {
    len / n + if i < len % n then 1 else 0
  }

  /** The length of the first `i` chunks. */
  function Used(len: nat, n: nat, i: nat): nat
    requires n > 0
  {
    i * (len / n) + if i < len % n then i else len % n
  }

  lemma UsedGrows(len: nat, n: nat, i: nat)
    requires n > 0
    ensures Used(len, n, i + 1) == Used(len, n, i) + ChunkSize(len, n, i)
    ensures Used(len, n, 0) == 0 && Used(len, n, n) == len
  {
    assert (i + 1) * (len / n) == i * (len / n) + len / n;
    assert len == n * (len / n) + len % n;
  }

  lemma {:induction false} UsedIsMonotone(len: nat, n: nat, i: nat, j: nat)
    requires n > 0 && i <= j
    ensures Used(len, n, i) <= Used(len, n, j)
    decreases j - i
  {
    if i < j {
      UsedGrows(len, n, j - 1);
      UsedIsMonotone(len, n, i, j - 1);
    }
  }

  /** While something is left the next chunk exists, is not empty and fits. */
  lemma NextChunkFits(len: nat, n: nat, i: nat)
    requires n > 0 && i <= n && Used(len, n, i) < len
    ensures i < n && ChunkSize(len, n, i) > 0 && Used(len, n, i + 1) <= len
  {
    UsedGrows(len, n, i);
    UsedIsMonotone(len, n, i + 1, n);
    if len / n == 0 {
      assert i * (len / n) == 0;
    }
  }

  /** Nothing is left exactly after min(len, n) chunks that were not empty. */
  lemma ChunkCount(len: nat, n: nat, i: nat)
    requires n > 0 && i <= n && i <= len && Used(len, n, i) >= len
    ensures i == if len < n then len else n
  {
    if len < n {
      assert len / n == 0 && len % n == len && i * (len / n) == 0;
    } else {
      assert len / n > 0 && ChunkSize(len, n, i) > 0;
      UsedGrows(len, n, i);
      if i < n {
        UsedIsMonotone(len, n, i + 1, n);
      }
    }
  }

  /** `splitEdgeDevices`: consecutive chunks that make up the input, as many as asked
      for unless there are fewer devices, none empty, the larger ones first. */
  method SplitEdgeDevices<T>(edgeDevices: seq<T>, splitSize: nat) returns (result: seq<seq<T>>)
    ensures splitSize == 0 ==> result == []
    ensures splitSize > 0 ==>
      && Flatten(result) == edgeDevices
      && |result| == (if |edgeDevices| < splitSize then |edgeDevices| else splitSize)
      && (forall i :: 0 <= i < |result| ==> |result[i]| == ChunkSize(|edgeDevices|, splitSize, i) > 0)
      && forall i, j :: 0 <= i < j < |result| ==> |result[j]| <= |result[i]| <= |result[j]| + 1
  {
    if splitSize == 0 {
      return [];
    }
    result := [];
    var sLen := |edgeDevices|;
    var splitLen := sLen / splitSize;
    var residueLen := sLen - splitLen * splitSize;
    var usedLen := 0;
    UsedGrows(sLen, splitSize, 0);
    assert residueLen == sLen % splitSize;
    while usedLen < sLen
      invariant |result| <= splitSize && |result| <= usedLen <= sLen
      invariant usedLen == Used(sLen, splitSize, |result|)
      invariant residueLen == if |result| < sLen % splitSize then sLen % splitSize - |result| else 0
      invariant Flatten(result) == edgeDevices[..usedLen]
      invariant forall i :: 0 <= i < |result| ==> |result[i]| == ChunkSize(sLen, splitSize, i) > 0
      decreases sLen - usedLen
    {
      NextChunkFits(sLen, splitSize, |result|);
      UsedGrows(sLen, splitSize, |result|);
      var residueExtra := 0;
      if residueLen > 0 {
        residueExtra := 1;
        residueLen := residueLen - 1;
      }
      var newSliceLen := splitLen + residueExtra;
      var newSlice := edgeDevices[usedLen..usedLen + newSliceLen];
      FlattenOneMore(result, newSlice);
      assert edgeDevices[..usedLen] + newSlice == edgeDevices[..usedLen + newSliceLen];
      result := result + [newSlice];
      usedLen := usedLen + newSliceLen;
    }
    ChunkCount(sLen, splitSize, |result|);
    assert edgeDevices[..sLen] == edgeDevices;
  }

  lemma FlattenOneMore<T>(chunks: seq<seq<T>>, chunk: seq<T>)
    ensures Flatten(chunks + [chunk]) == Flatten(chunks) + chunk
  {
    assert (chunks + [chunk])[..|chunks|] == chunks;
  }

  lemma {:induction false} ChunksOfDistinctDevices(chunks: seq<seq<EdgeDevice>>)
    requires UniqueDevices(Flatten(chunks))
    ensures forall i, a, j, b |
        0 <= i < |chunks| && 0 <= a < |chunks[i]| && 0 <= j < |chunks| && 0 <= b < |chunks[j]| ::
      i != j || a != b ==> chunks[i][a].name != chunks[j][b].name
    ensures forall i, a :: 0 <= i < |chunks| && 0 <= a < |chunks[i]| ==> chunks[i][a] in Flatten(chunks)
    ensures forall d :: d in Flatten(chunks) ==>
      exists i, a :: 0 <= i < |chunks| && 0 <= a < |chunks[i]| && chunks[i][a] == d
  {
    if chunks != [] {
      var init, last := chunks[..|chunks| - 1], chunks[|chunks| - 1];
      var all := Flatten(chunks);
      assert all == Flatten(init) + last;
      assert forall m :: 0 <= m < |Flatten(init)| ==> all[m] == Flatten(init)[m];
      assert forall m :: 0 <= m < |last| ==> all[|Flatten(init)| + m] == last[m];
      ChunksOfDistinctDevices(init);
      forall i, a, b | 0 <= i < |init| && 0 <= a < |init[i]| && 0 <= b < |last|
        ensures init[i][a].name != last[b].name
      {
        var m :| 0 <= m < |Flatten(init)| && Flatten(init)[m] == init[i][a];
        assert all[m].name != all[|Flatten(init)| + b].name;
      }
      forall i, a | 0 <= i < |init| && 0 <= a < |init[i]| ensures chunks[i][a] == init[i][a] {}
      forall d | d in all ensures exists i, a :: 0 <= i < |chunks| && 0 <= a < |chunks[i]| && chunks[i][a] == d {
        if d in Flatten(init) {
          var i, a :| 0 <= i < |init| && 0 <= a < |init[i]| && init[i][a] == d;
          assert chunks[i][a] == d;
        } else {
          var b :| 0 <= b < |last| && last[b] == d;
          assert chunks[|chunks| - 1][b] == d;
        }
      }
    }
  }

  // ---------------------------------------------------------------- interleaving

  /** A goroutine: the devices it still has to treat, its copy of the first one once
      the status call is behind it, and the errors it has recorded. */
  datatype Worker = Worker(todo: seq<EdgeDevice>, copy: Option<EdgeDevice>, errs: seq<Name>)

  /** One goroutine's next call. */
  function Turn(devices: Devices, w: Worker, job: Job, faults: map<Name, Replies>): (Devices, Worker)
    requires w.todo != [] && w.todo[0].name in devices
  {
    var d := w.todo[0];
    var r := ReplyFor(faults, d.name);
    match w.copy
    case None =>
      (match StatusCall(job, d)
       case None => (devices, w.(copy := Some(d)))
       case Some(desired) =>
         (if r.status == Rejected then devices else devices[d.name := PatchStatus(devices[d.name], d, desired)],
          if r.status == Accepted then w.(copy := Some(desired)) else Worker(w.todo[1..], None, w.errs + [d.name])))
    case Some(copy) =>
      (match LabelCall(job, copy)
       case None => (devices, Worker(w.todo[1..], None, w.errs))
       case Some(desired) =>
         (if r.labels == Rejected then devices else devices[d.name := PatchLabels(devices[d.name], copy, desired)],
          Worker(w.todo[1..], None, w.errs + if r.labels == Accepted then [] else [d.name])))
  }

  /** Every turn is progress, so every goroutine comes to its end. */
  lemma TurnsRunOut(devices: Devices, w: Worker, job: Job, faults: map<Name, Replies>)
    requires w.todo != [] && w.todo[0].name in devices
    ensures Remaining(Turn(devices, w, job, faults).1) < Remaining(w)
  {
  }

  function Remaining(w: Worker): int {
    2 * |w.todo| - if w.copy.Some? then 1 else 0
  }

  // ----------------------------------------------- what a goroutine has achieved

  /** The stored state of a device in a chunk: done, under way, or untouched. */
  function Stored(devices: Devices, w: Worker, chunk: seq<EdgeDevice>, a: nat, job: Job, faults: map<Name,
      Replies>): EdgeDevice
    requires |w.todo| <= |chunk| && a < |chunk| && chunk[a].name in devices
  {
    var d := devices[chunk[a].name];
    var r := ReplyFor(faults, chunk[a].name);
    var done := |chunk| - |w.todo|;
    if a < done then Place(job, d, r).device
    else if a == done && w.copy.Some? then Write(d, StatusCall(job, d), r.status).device
    else d
  }

  ghost predicate WorkerInv(w: Worker, chunk: seq<EdgeDevice>, job: Job, faults: map<Name, Replies>) {
    && |w.todo| <= |chunk| && w.todo == chunk[|chunk| - |w.todo|..]
    && w.errs == Errors(job, chunk[..|chunk| - |w.todo|], faults)
    && (w.copy.Some? ==>
         w.todo != [] &&
         Write(w.todo[0], StatusCall(job, w.todo[0]), ReplyFor(faults, w.todo[0].name).status)
         == Outcome(w.copy.value, true))
  }

  ghost predicate InStore(devices: Devices, devices0: Devices, w: Worker, chunk: seq<EdgeDevice>, job: Job,
      faults: map<Name, Replies>) {
    && |w.todo| <= |chunk|
    && forall a :: 0 <= a < |chunk| ==>
         chunk[a].name in devices && chunk[a].name in devices0 &&
         devices[chunk[a].name] == Stored(devices0, w, chunk, a, job, faults)
  }

  ghost predicate SameOutside(devices': Devices, devices: Devices, name: Name) {
    && devices'.Keys == devices.Keys
    && forall k :: k in devices && k != name ==> devices'[k] == devices[k]
  }

  /** A turn over a device whose copy was current writes what the sequential body
      would have written there, and nothing elsewhere. */
  lemma TurnWrites(devices: Devices, devices0: Devices, w: Worker, job: Job, faults: map<Name, Replies>)
    requires w.todo != [] && w.todo[0].name in devices && w.todo[0].name in devices0
    requires var d, d0 := w.todo[0], devices0[w.todo[0].name];
      var first := Write(d0, StatusCall(job, d0), ReplyFor(faults, d.name).status);
      && (d0 == d || Spares(job, d, d0))
      && devices[d.name] == (if w.copy.Some? then first.device else d0)
      && (w.copy.Some? ==> Write(d, StatusCall(job, d), ReplyFor(faults, d.name).status) == Outcome(w.copy.value, true))
    ensures var (devices', w') := Turn(devices, w, job, faults);
      var d, d0 := w.todo[0], devices0[w.todo[0].name];
      var r := ReplyFor(faults, d.name);
      && SameOutside(devices', devices, d.name)
      && (if w'.copy.Some?
          then w'.todo == w.todo && w'.errs == w.errs
               && Write(d, StatusCall(job, d), r.status) == Outcome(w'.copy.value, true)
               && devices'[d.name] == Write(d0, StatusCall(job, d0), r.status).device
          else w'.todo == w.todo[1..] && devices'[d.name] == Place(job, d0, r).device
               && w'.errs == w.errs + if Place(job, d, r).ok then [] else [d.name])
  {
    var d := w.todo[0];
    if StatusCall(job, d).Some? {
      PatchesOfFreshCopies(d, StatusCall(job, d).value);
    }
    if w.copy.Some? && LabelCall(job, w.copy.value).Some? {
      PatchesOfFreshCopies(w.copy.value, LabelCall(job, w.copy.value).value);
    }
  }

  lemma TurnKeepsWorker(devices: Devices, devices0: Devices, w: Worker, chunk: seq<EdgeDevice>, job: Job,
      faults: map<Name, Replies>)
    requires WorkerInv(w, chunk, job, faults) && w.todo != []
    requires Current(job, chunk, devices0) && InStore(devices, devices0, w, chunk, job, faults)
    requires w.todo[0].name in devices
    ensures WorkerInv(Turn(devices, w, job, faults).1, chunk, job, faults)
    ensures SameOutside(Turn(devices, w, job, faults).0, devices, w.todo[0].name)
  {
    var done := |chunk| - |w.todo|;
    assert w.todo[0] == chunk[done] && chunk[done] in chunk;
    TurnWrites(devices, devices0, w, job, faults);
    WorkerAdvances(w, Turn(devices, w, job, faults).1, chunk, job, faults);
  }

  lemma WorkerAdvances(w: Worker, w': Worker, chunk: seq<EdgeDevice>, job: Job, faults: map<Name, Replies>)
    requires WorkerInv(w, chunk, job, faults) && w.todo != []
    requires var r := ReplyFor(faults, w.todo[0].name);
      if w'.copy.Some?
      then w'.todo == w.todo && w'.errs == w.errs &&
           Write(w.todo[0], StatusCall(job, w.todo[0]), r.status) == Outcome(w'.copy.value, true)
      else w'.todo == w.todo[1..] &&
           w'.errs == w.errs + if Place(job, w.todo[0], r).ok then [] else [w.todo[0].name]
    ensures WorkerInv(w', chunk, job, faults)
  {
    var done := |chunk| - |w.todo|;
    assert chunk[..done + 1][..done] == chunk[..done];
    assert w.todo[1..] == chunk[done + 1..];
  }

  lemma TurnKeepsStore(devices: Devices, devices0: Devices, w: Worker, chunk: seq<EdgeDevice>, job: Job,
      faults: map<Name, Replies>)
    requires WorkerInv(w, chunk, job, faults) && w.todo != []
    requires Current(job, chunk, devices0) && InStore(devices, devices0, w, chunk, job, faults)
    requires w.todo[0].name in devices
    ensures var (devices', w') := Turn(devices, w, job, faults);
      InStore(devices', devices0, w', chunk, job, faults)
  {
    var done := |chunk| - |w.todo|;
    assert w.todo[0] == chunk[done] && chunk[done] in chunk;
    TurnWrites(devices, devices0, w, job, faults);
    var (devices', w') := Turn(devices, w, job, faults);
    forall a | 0 <= a < |chunk|
      ensures chunk[a].name in devices' && devices'[chunk[a].name] == Stored(devices0, w', chunk, a, job, faults)
    {
      if a != done {
        assert chunk[a].name != chunk[done].name;
        StoredElsewhere(devices0, w, w', chunk, a, job, faults);
      }
    }
  }

  lemma StoredElsewhere(devices: Devices, w: Worker, w': Worker, chunk: seq<EdgeDevice>, a: nat, job: Job,
      faults: map<Name, Replies>)
    requires |w.todo| <= |chunk| && a < |chunk| && chunk[a].name in devices && a != |chunk| - |w.todo|
    requires (w'.copy.Some? && |w'.todo| == |w.todo|) || (w'.copy.None? && |w'.todo| == |w.todo| - 1)
    ensures Stored(devices, w', chunk, a, job, faults) == Stored(devices, w, chunk, a, job, faults)
  {
  }

  // -------------------------------------------------------------- all goroutines

  datatype Pool = Pool(devices: Devices, workers: seq<Worker>)

  function Start(devices: Devices, chunks: seq<seq<EdgeDevice>>): Pool {
    Pool(devices, seq(|chunks|, i requires 0 <= i < |chunks| => Worker(chunks[i], None, [])))
  }

  ghost predicate PoolInv(pool: Pool, devices0: Devices, chunks: seq<seq<EdgeDevice>>, job: Job, faults: map<Name,
      Replies>) {
    && |pool.workers| == |chunks|
    && pool.devices.Keys == devices0.Keys
    && (forall i :: 0 <= i < |chunks| ==>
          WorkerInv(pool.workers[i], chunks[i], job, faults) &&
          InStore(pool.devices, devices0, pool.workers[i], chunks[i], job, faults))
    && (forall k :: k in devices0 && k !in DeviceNames(Flatten(chunks)) ==> pool.devices[k] == devices0[k])
  }

  /** The goroutine that the scheduler picks takes its turn, if it is not finished. */
  function Step(pool: Pool, i: nat, job: Job, faults: map<Name, Replies>): Pool {
    if i < |pool.workers| && pool.workers[i].todo != [] && pool.workers[i].todo[0].name in pool.devices
    then
      var (devices, w) := Turn(pool.devices, pool.workers[i], job, faults);
      Pool(devices, pool.workers[i := w])
    else pool
  }

  function RunSchedule(pool: Pool, schedule: seq<nat>, job: Job, faults: map<Name, Replies>): Pool {
    if schedule == [] then pool
    else Step(RunSchedule(pool, schedule[..|schedule| - 1], job, faults), schedule[|schedule| - 1], job, faults)
  }

  predicate Finished(pool: Pool) {
    forall w :: w in pool.workers ==> w.todo == []
  }

  /** What `ExecuteConcurrent` returns: the errors goroutine by goroutine. */
  function ReturnedErrors(pool: Pool): seq<Name> {
    Flatten(seq(|pool.workers|, i requires 0 <= i < |pool.workers| => pool.workers[i].errs))
  }

  ghost predicate ChunksCurrent(chunks: seq<seq<EdgeDevice>>, devices0: Devices, job: Job) {
    && (forall i :: 0 <= i < |chunks| ==> Current(job, chunks[i], devices0))
    && (forall i, a, j, b | 0 <= i < |chunks| && 0 <= a < |chunks[i]| && 0 <= j < |chunks| && 0 <= b < |chunks[j]| ::
          i != j ==> chunks[i][a].name != chunks[j][b].name)
    && (forall i, a :: 0 <= i < |chunks| && 0 <= a < |chunks[i]| ==> chunks[i][a].name in DeviceNames(Flatten(chunks)))
  }

  lemma StepKeepsPool(pool: Pool, i: nat, devices0: Devices, chunks: seq<seq<EdgeDevice>>, job: Job,
      faults: map<Name, Replies>)
    requires ChunksCurrent(chunks, devices0, job) && PoolInv(pool, devices0, chunks, job, faults)
    ensures PoolInv(Step(pool, i, job, faults), devices0, chunks, job, faults)
  {
    if i < |pool.workers| && pool.workers[i].todo != [] && pool.workers[i].todo[0].name in pool.devices {
      var w, chunk := pool.workers[i], chunks[i];
      TurnKeepsWorker(pool.devices, devices0, w, chunk, job, faults);
      TurnKeepsStore(pool.devices, devices0, w, chunk, job, faults);
      var next := Step(pool, i, job, faults);
      var done := |chunk| - |w.todo|;
      assert w.todo[0] == chunk[done];
      forall j | 0 <= j < |chunks| && j != i
        ensures InStore(next.devices, devices0, next.workers[j], chunks[j], job, faults)
      {
        forall b | 0 <= b < |chunks[j]| ensures chunks[j][b].name != w.todo[0].name {
          assert chunks[i][done].name != chunks[j][b].name;
        }
        OtherStoreStays(next.devices, pool.devices, devices0, pool.workers[j], chunks[j], job, faults, w.todo[0].name);
      }
    }
  }

  lemma OtherStoreStays(devices': Devices, devices: Devices, devices0: Devices, w: Worker, chunk: seq<EdgeDevice>,
      job: Job, faults: map<Name, Replies>, name: Name)
    requires InStore(devices, devices0, w, chunk, job, faults) && SameOutside(devices', devices, name)
    requires forall b :: 0 <= b < |chunk| ==> chunk[b].name != name
    ensures InStore(devices', devices0, w, chunk, job, faults)
  {
  }

  lemma {:induction false} ScheduleKeepsPool(pool: Pool, schedule: seq<nat>, devices0: Devices,
      chunks: seq<seq<EdgeDevice>>, job: Job, faults: map<Name, Replies>)
    requires ChunksCurrent(chunks, devices0, job) && PoolInv(pool, devices0, chunks, job, faults)
    ensures PoolInv(RunSchedule(pool, schedule, job, faults), devices0, chunks, job, faults)
  {
    if schedule != [] {
      var init := schedule[..|schedule| - 1];
      ScheduleKeepsPool(pool, init, devices0, chunks, job, faults);
      StepKeepsPool(RunSchedule(pool, init, job, faults), schedule[|schedule| - 1], devices0, chunks, job, faults);
    }
  }

  lemma StartIsRight(devices: Devices, chunks: seq<seq<EdgeDevice>>, job: Job, faults: map<Name, Replies>)
    requires ChunksCurrent(chunks, devices, job)
    ensures PoolInv(Start(devices, chunks), devices, chunks, job, faults)
  {
    forall i | 0 <= i < |chunks|
      ensures WorkerInv(Start(devices, chunks).workers[i], chunks[i], job, faults)
      ensures InStore(devices, devices, Start(devices, chunks).workers[i], chunks[i], job, faults)
    {
      assert chunks[i][..0] == [] && chunks[i][0..] == chunks[i];
      forall a | 0 <= a < |chunks[i]| ensures chunks[i][a] in chunks[i] {}
    }
  }

  lemma {:induction false} ErrorsOfChunks(job: Job, chunks: seq<seq<EdgeDevice>>, errs: seq<seq<Name>>,
      faults: map<Name, Replies>)
    requires |errs| == |chunks|
    requires forall i :: 0 <= i < |chunks| ==> errs[i] == Errors(job, chunks[i], faults)
    ensures Flatten(errs) == Errors(job, Flatten(chunks), faults)
  {
    if chunks != [] {
      ErrorsOfChunks(job, chunks[..|chunks| - 1], errs[..|errs| - 1], faults);
      ErrorsAppend(job, Flatten(chunks[..|chunks| - 1]), chunks[|chunks| - 1], faults);
    }
  }

  lemma {:induction false} ErrorsAppend(job: Job, a: seq<EdgeDevice>, b: seq<EdgeDevice>, faults: map<Name, Replies>)
    ensures Errors(job, a + b, faults) == Errors(job, a, faults) + Errors(job, b, faults)
  {
    if b == [] {
      assert a + b == a;
    } else {
      assert (a + b)[..|a + b| - 1] == a + b[..|b| - 1];
      ErrorsAppend(job, a, b[..|b| - 1], faults);
    }
  }

  lemma ChunksAreCurrent(input: seq<EdgeDevice>, chunks: seq<seq<EdgeDevice>>, devices: Devices, job: Job)
    requires Current(job, input, devices) && Flatten(chunks) == input
    ensures ChunksCurrent(chunks, devices, job)
  {
    ChunksOfDistinctDevices(chunks);
    forall i | 0 <= i < |chunks| ensures Current(job, chunks[i], devices) {
      forall d | d in chunks[i] ensures d in input {
        var a :| 0 <= a < |chunks[i]| && chunks[i][a] == d;
      }
    }
  }

  lemma DeviceOfSomeWorker(pool: Pool, devices: Devices, chunks: seq<seq<EdgeDevice>>, job: Job, faults: map<Name,
      Replies>, k: Name)
    requires PoolInv(pool, devices, chunks, job, faults) && Finished(pool)
    requires UniqueDevices(Flatten(chunks)) && k in devices && k in DeviceNames(Flatten(chunks))
    ensures pool.devices[k] == Place(job, devices[k], ReplyFor(faults, k)).device
  {
    ChunksOfDistinctDevices(chunks);
    var d :| d in Flatten(chunks) && d.name == k;
    var i, a :| 0 <= i < |chunks| && 0 <= a < |chunks[i]| && chunks[i][a] == d;
    assert pool.workers[i] in pool.workers;
    assert pool.devices[chunks[i][a].name] == Stored(devices, pool.workers[i], chunks[i], a, job, faults);
  }

  lemma FinalStore(pool: Pool, devices: Devices, chunks: seq<seq<EdgeDevice>>, job: Job, faults: map<Name, Replies>)
    requires PoolInv(pool, devices, chunks, job, faults) && Finished(pool) && UniqueDevices(Flatten(chunks))
    ensures pool.devices == PlaceAll(devices, job, DeviceNames(Flatten(chunks)), faults)
  {
    forall k | k in devices
      ensures pool.devices[k] == PlaceAll(devices, job, DeviceNames(Flatten(chunks)), faults)[k]
    {
      if k in DeviceNames(Flatten(chunks)) {
        DeviceOfSomeWorker(pool, devices, chunks, job, faults, k);
      }
    }
  }

  lemma FinalErrors(pool: Pool, devices: Devices, chunks: seq<seq<EdgeDevice>>, job: Job, faults: map<Name, Replies>)
    requires PoolInv(pool, devices, chunks, job, faults) && Finished(pool)
    ensures ReturnedErrors(pool) == Errors(job, Flatten(chunks), faults)
  {
    var errs := seq(|pool.workers|, i requires 0 <= i < |pool.workers| => pool.workers[i].errs);
    forall i | 0 <= i < |chunks| ensures errs[i] == Errors(job, chunks[i], faults) {
      assert pool.workers[i] in pool.workers;
      assert chunks[i][..|chunks[i]|] == chunks[i];
    }
    ErrorsOfChunks(job, chunks, errs, faults);
  }

  /** Schedule independence: for any split of uniquely named devices and any
      interleaving of the goroutines' calls, once all have finished the store and the
      returned errors are those of the sequential call, under the same replies. */
  lemma ScheduleIndependence(
      devices: Devices, input: seq<EdgeDevice>, chunks: seq<seq<EdgeDevice>>, job: Job, faults: map<Name, Replies>,
      schedule: seq<nat>)
    requires Current(job, input, devices) && Flatten(chunks) == input
    requires Finished(RunSchedule(Start(devices, chunks), schedule, job, faults))
    ensures var pool := RunSchedule(Start(devices, chunks), schedule, job, faults);
      && pool.devices == PlaceAll(devices, job, DeviceNames(input), faults)
      && ReturnedErrors(pool) == Errors(job, input, faults)
  {
    ChunksAreCurrent(input, chunks, devices, job);
    StartIsRight(devices, chunks, job, faults);
    ScheduleKeepsPool(Start(devices, chunks), schedule, devices, chunks, job, faults);
    var pool := RunSchedule(Start(devices, chunks), schedule, job, faults);
    FinalStore(pool, devices, chunks, job, faults);
    FinalErrors(pool, devices, chunks, job, faults);
  }

  function TurnsOf(schedule: seq<nat>, i: nat): nat {
    if schedule == [] then 0
    else TurnsOf(schedule[..|schedule| - 1], i) + if schedule[|schedule| - 1] == i then 1 else 0
  }

  lemma StepUsesTheTurn(pool: Pool, j: nat, i: nat, job: Job, faults: map<Name, Replies>)
    requires i < |pool.workers|
    requires pool.workers[i].todo != [] ==> pool.workers[i].todo[0].name in pool.devices
    ensures var next := Step(pool, j, job, faults);
      && |next.workers| == |pool.workers|
      && (i != j ==> next.workers[i] == pool.workers[i])
      && (i == j && pool.workers[i].todo != [] ==> Remaining(next.workers[i]) < Remaining(pool.workers[i]))
      && (pool.workers[i].todo == [] ==> next.workers[i].todo == [])
  {
    var w := pool.workers[i];
    if i == j && w.todo != [] {
      TurnsRunOut(pool.devices, w, job, faults);
    }
  }

  lemma NextIsInStore(pool: Pool, i: nat, devices0: Devices, chunks: seq<seq<EdgeDevice>>, job: Job,
      faults: map<Name, Replies>)
    requires PoolInv(pool, devices0, chunks, job, faults) && i < |chunks|
    ensures pool.workers[i].todo != [] ==> pool.workers[i].todo[0].name in pool.devices
  {
    var w := pool.workers[i];
    if w.todo != [] {
      assert w.todo[0] == chunks[i][|chunks[i]| - |w.todo|];
    }
  }

  /** Every turn of a goroutine that is not finished is used. */
  lemma {:induction false} TurnsAreUsed(devices: Devices, chunks: seq<seq<EdgeDevice>>, schedule: seq<nat>, job: Job,
      faults: map<Name, Replies>, i: nat)
    requires ChunksCurrent(chunks, devices, job) && i < |chunks|
    ensures var pool := RunSchedule(Start(devices, chunks), schedule, job, faults);
      |pool.workers| == |chunks| &&
      (pool.workers[i].todo != [] ==> Remaining(pool.workers[i]) + TurnsOf(schedule, i) <= 2 * |chunks[i]|)
  {
    if schedule != [] {
      var init := schedule[..|schedule| - 1];
      TurnsAreUsed(devices, chunks, init, job, faults, i);
      StartIsRight(devices, chunks, job, faults);
      ScheduleKeepsPool(Start(devices, chunks), init, devices, chunks, job, faults);
      var pool := RunSchedule(Start(devices, chunks), init, job, faults);
      NextIsInStore(pool, i, devices, chunks, job, faults);
      StepUsesTheTurn(pool, schedule[|schedule| - 1], i, job, faults);
    }
  }

  /** The wait at the end is not for ever: a schedule that gives every goroutine two
      turns per device finishes them all. */
  lemma FairSchedulesFinish(devices: Devices, input: seq<EdgeDevice>, chunks: seq<seq<EdgeDevice>>,
      schedule: seq<nat>, job: Job, faults: map<Name, Replies>)
    requires Current(job, input, devices) && Flatten(chunks) == input
    requires forall i :: 0 <= i < |chunks| ==> TurnsOf(schedule, i) >= 2 * |chunks[i]|
    ensures Finished(RunSchedule(Start(devices, chunks), schedule, job, faults))
  {
    var pool := RunSchedule(Start(devices, chunks), schedule, job, faults);
    ChunksAreCurrent(input, chunks, devices, job);
    StartIsRight(devices, chunks, job, faults);
    ScheduleKeepsPool(Start(devices, chunks), schedule, devices, chunks, job, faults);
    forall w | w in pool.workers ensures w.todo == [] {
      var i :| 0 <= i < |pool.workers| && pool.workers[i] == w;
      TurnsAreUsed(devices, chunks, schedule, job, faults, i);
    }
  }
}
