/** The simple form of a mounted volume: directories that map names to byte strings, and handles with
    positions. What each call means there. */
module FatModel {
  import opened Bytes
  import opened FatEntry
  import FatFileState
  import opened FatOpen

  datatype Item = Subdir | Plain(data: seq<byte>, readOnly: bool)

  /** An open file: where it is, its position, what it may do, and two facts about its sector buffer.
      `sure`: the buffer agrees with the drive wherever it shows the file; `good`: it is moreover unused or
      on a sector of the file, so that no call can make it disagree. */
  datatype Handle = Closed
    | Open(dir: nat, name: seq<byte>, pos: nat, canRead: bool, canWrite: bool, sure: bool, good: bool)

  /** Directories, handles, and whether the drive has no free cluster. */
  datatype World = World(dirs: seq<map<seq<byte>, Item>>, open: seq<Handle>, full: bool)

  /** One open file as a byte string with a position. */
  datatype Model = Model(data: seq<byte>, pos: nat, sure: bool, good: bool)

  datatype Call = Read(n: nat) | Write(data: seq<byte>) | Seek(ofs: dword) | Truncate | Sync(tm: dword)

  /** `Skipped` answers what the caller, who keeps to one open object per file, does not ask for. */
  datatype Reply = Reply(res: FResult, data: seq<byte>, n: nat) | Skipped

  datatype Job = Start(dir: nat, name: seq<byte>, mode: Mode, tm: dword)
    | On(handle: nat, call: Call)
    | Close(handle: nat, tm: dword)
    | Remove(dir: nat, name: seq<byte>)

  // ---------- Calls on an open file ----------

  ghost predicate DoesRead(x: Model, n: nat, r: Reply, y: Model)
    requires r.Reply?
  {
    && r.res == FR_OK && |r.data| == (if n <= |x.data| - x.pos then n else |x.data| - x.pos)
    && x.pos + |r.data| <= |x.data|
    && y.data == x.data && y.pos == x.pos + |r.data| && (x.sure ==> y.sure && r.data == x.data[x.pos..y.pos])
    && (x.good ==> y.good)
  }

  ghost predicate DoesWrite(x: Model, d: seq<byte>, r: Reply, y: Model, full: bool)
    requires r.Reply? && x.pos <= |x.data|
  {
    && r.res == FR_OK && r.n <= |d| && (r.n == |d| || full || (r.n == 0 && x.pos + |d| > ALL_ONES))
    && y.pos == x.pos + r.n && |y.data| == (if y.pos > |x.data| then y.pos else |x.data|)
    && (x.sure ==> y.sure && y.data == FatFileState.Overwrite(x.data, x.pos, d[..r.n])) && (x.good ==> y.good)
  }

  ghost predicate DoesSeek(x: Model, canWrite: bool, ofs: dword, r: Reply, y: Model, full: bool)
    requires r.Reply?
  {
    var target := if ofs > |x.data| && !canWrite then |x.data| else ofs;
    && r.res == FR_OK && y.pos <= target && (y.pos == target || full)
    && |y.data| == (if y.pos > |x.data| then y.pos else |x.data|) && y.data[..|x.data|] == x.data
    && (x.sure && (x.good || y.pos <= |x.data|) ==> y.sure) && (x.good ==> y.good)
  }

  ghost predicate DoesTruncate(x: Model, r: Reply, y: Model)
    requires r.Reply? && x.pos <= |x.data|
  {
    && r.res == FR_OK && y.data == x.data[..x.pos] && y.pos == x.pos && (x.sure ==> y.sure)
    && (x.good && (x.pos == |x.data| || x.pos % 512 != 0) ==> y.good)
  }

  /** What a call means for the file that it is made on. */
  ghost predicate FileDoes(x: Model, canRead: bool, canWrite: bool, call: Call, r: Reply, y: Model, full: bool) {
    && r.Reply? && x.pos <= |x.data| && y.pos <= |y.data| && (y.good ==> y.sure)
    && match call {
      case Read(n) => if !canRead then r.res == FR_DENIED && y == x else DoesRead(x, n, r, y)
      case Write(d) => if !canWrite then r.res == FR_DENIED && y == x else DoesWrite(x, d, r, y, full)
      case Seek(ofs) => DoesSeek(x, canWrite, ofs, r, y, full)
      case Truncate => if !canWrite then r.res == FR_DENIED && y == x else DoesTruncate(x, r, y)
      case Sync(tm) =>
        r.res == FR_OK && y.data == x.data && y.pos == x.pos && (x.sure ==> y.sure) && (x.good ==> y.good)
    }
  }

  // ---------- Jobs ----------

  /** The handle is open on a file of the volume. */
  ghost predicate HandleIn(w: World, h: nat) {
    && h < |w.open| && w.open[h].Open? && w.open[h].dir < |w.dirs|
    && w.open[h].name in w.dirs[w.open[h].dir] && w.dirs[w.open[h].dir][w.open[h].name].Plain?
  }

  ghost function ModelAt(w: World, h: nat): Model
    requires HandleIn(w, h)
  {
    Model(w.dirs[w.open[h].dir][w.open[h].name].data, w.open[h].pos, w.open[h].sure, w.open[h].good)
  }

  /** The world with another file at the handle. */
  ghost function With(w: World, h: nat, y: Model, full: bool): World
    requires HandleIn(w, h)
  {
    var hd := w.open[h];
    World(w.dirs[hd.dir := w.dirs[hd.dir][hd.name := Plain(y.data, w.dirs[hd.dir][hd.name].readOnly)]],
          w.open[h := Open(hd.dir, hd.name, y.pos, hd.canRead, hd.canWrite, y.sure, y.good)], full)
  }

  /** Some handle is open on the file. */
  ghost predicate InUse(w: World, k: nat, name: seq<byte>) {
    exists h :: 0 <= h < |w.open| && w.open[h].Open? && w.open[h].dir == k && w.open[h].name == name
  }

  ghost function Verdict(dir: map<seq<byte>, Item>, name: seq<byte>, mode: Mode): Answer {
    if name !in dir then Decide(false, false, false, mode)
    else if dir[name].Subdir? then Decide(true, false, true, mode)
    else Decide(true, dir[name].readOnly, false, mode)
  }

  function Fresh(k: nat, name: seq<byte>, mode: Mode): Handle {
    Open(k, name, 0, mode.read, mode.write, true, true)
  }

  /** An open: a refusal changes nothing; else there is a new handle, on the file as it is or on an empty
      one. A new file may find no room. */
  ghost predicate DoesStart(w: World, k: nat, name: seq<byte>, mode: Mode, r: Reply, w': World)
    requires k < |w.dirs| && r.Reply?
  {
    match Verdict(w.dirs[k], name, mode) {
      case Refuse(res) => r.res == res && w' == w.(full := w'.full)
      case Reuse => r.res == FR_OK && w' == World(w.dirs, w.open + [Fresh(k, name, mode)], w'.full)
      case Clear =>
        && r.res == FR_OK
        && w' == World(w.dirs[k := w.dirs[k][name := Plain([], false)]], w.open + [Fresh(k, name, mode)], w'.full)
      case Make =>
        || (&& r.res == FR_OK
            && w' == World(w.dirs[k := w.dirs[k][name := Plain([], false)]], w.open + [Fresh(k, name, mode)], w'.full))
        || (r.res == FR_DENIED && w' == w.(full := w'.full))
    }
  }

  /** What a job means for the volume. */
  ghost predicate Does(w: World, job: Job, r: Reply, w': World) {
    match job {
      case Start(k, name, mode, tm) =>
        k < |w.dirs| &&
        if InUse(w, k, name) then r == Skipped && w' == w else r.Reply? && DoesStart(w, k, name, mode, r, w')
      case On(h, call) =>
        if h < |w.open| && w.open[h].Open? then
          && HandleIn(w, h) && HandleIn(w', h) && w' == With(w, h, ModelAt(w', h), w'.full)
          && FileDoes(ModelAt(w, h), w.open[h].canRead, w.open[h].canWrite, call, r, ModelAt(w', h), w'.full)
        else r.Reply? && r.res == FR_INVALID_OBJECT && w' == w
      case Close(h, tm) =>
        r.Reply? &&
        if h < |w.open| && w.open[h].Open? then r.res == FR_OK && w' == w.(open := w.open[h := Closed], full := w'.full)
        else r.res == FR_INVALID_OBJECT && w' == w
      case Remove(k, name) =>
        k < |w.dirs| &&
        if InUse(w, k, name) then r == Skipped && w' == w
        else if name in w.dirs[k] && w.dirs[k][name].Subdir? then
          (r == Skipped || (r.Reply? && r.res == FR_DENIED)) && w' == w.(full := w'.full)
        else if name !in w.dirs[k] then r.Reply? && r.res == FR_NO_FILE && w' == w.(full := w'.full)
        else if w.dirs[k][name].readOnly then r.Reply? && r.res == FR_DENIED && w' == w.(full := w'.full)
        else r.Reply? && r.res == FR_OK && w' == w.(dirs := w.dirs[k := w.dirs[k] - {name}], full := w'.full)
    }
  }

  // ---------- Runs ----------

  /** The replies and the worlds in between follow the model, job by job. */
  ghost predicate Follows(jobs: seq<Job>, replies: seq<Reply>, trace: seq<World>) {
    && |replies| <= |jobs| && |trace| == |replies| + 1
    && forall k :: 0 <= k < |replies| ==> Does(trace[k], jobs[k], replies[k], trace[k + 1])
  }

  lemma FollowsStart(jobs: seq<Job>, w: World)
    ensures Follows(jobs, [], [w])
  {
  }

  lemma FollowsNext(jobs: seq<Job>, replies: seq<Reply>, trace: seq<World>, r: Reply, w: World)
    requires Follows(jobs, replies, trace) && |replies| < |jobs| && Does(trace[|replies|], jobs[|replies|], r, w)
    ensures Follows(jobs, replies + [r], trace + [w])
  {
    hide Does;
  }

  /** The buffers of all open files are good. */
  ghost predicate AllGood(w: World) {
    forall h :: 0 <= h < |w.open| && w.open[h].Open? ==> w.open[h].sure && w.open[h].good
  }

  /** A truncation that takes nothing off, or ends inside a sector, or happens to leave the buffer good. */
  ghost predicate CleanCut(w: World, job: Job, w': World) {
    job.On? && job.call.Truncate? && HandleIn(w, job.handle) && HandleIn(w', job.handle) ==>
      var x := ModelAt(w, job.handle);
      x.pos == |x.data| || x.pos % 512 != 0 || ModelAt(w', job.handle).good
  }

  ghost predicate CleanCuts(jobs: seq<Job>, trace: seq<World>) {
    forall k :: 0 <= k < |jobs| && k < |trace| - 1 ==> CleanCut(trace[k], jobs[k], trace[k + 1])
  }

  lemma GoodStep(w: World, job: Job, r: Reply, w': World)
    requires Does(w, job, r, w') && AllGood(w) && CleanCut(w, job, w')
    ensures AllGood(w')
  {
    if job.On? && job.handle < |w.open| && w.open[job.handle].Open? {
      var x, y := ModelAt(w, job.handle), ModelAt(w', job.handle);
      assert x.sure && x.good;
      assert y.good && y.sure;
    }
  }

  /** With clean cuts every open file is a byte string without reservation, in every run. */
  lemma {:induction false} StaysGood(jobs: seq<Job>, replies: seq<Reply>, trace: seq<World>, k: nat)
    requires Follows(jobs, replies, trace) && CleanCuts(jobs, trace) && AllGood(trace[0]) && k < |trace|
    ensures AllGood(trace[k])
  {
    if k > 0 {
      StaysGood(jobs, replies, trace, k - 1);
      assert Does(trace[k - 1], jobs[k - 1], replies[k - 1], trace[k - 1 + 1]);
      assert CleanCut(trace[k - 1], jobs[k - 1], trace[k - 1 + 1]);
      hide Does, AllGood, CleanCut;
      GoodStep(trace[k - 1], jobs[k - 1], replies[k - 1], trace[k]);
    }
  }
}
