/** BuildImages (galsim/config/image.py): build a batch of images either in
    one loop or by splitting the batch into chunks ("tasks") that worker
    processes build and that come back in any order.

    The model is sequential. Building one image (BuildImage) is an oracle
    `build(image_num, obj_num)` that either returns an image or raises; the
    number of objects of each image of the batch (GetNObjForImage) is the
    input `nobj`, indexed by position in the batch; the order in which chunk
    results arrive is the input `arrival`, any ordering of the tasks. */
module Dispatch {
  import opened Common

  // ---------------------------------------------------------------------------
  // Number of processes

  /** nproc after lines 84-92: forced to 1 when already inside a pool
      ('current_nproc' in config), then capped at nimages. `nproc` is the
      value UpdateNProc returned. */
  function EffectiveNProc(nproc: int, alreadyMultiprocessing: bool, nimages: nat): (r: int)
    ensures r <= nimages && r <= nproc
    ensures r > 1 <==> nproc > 1 && !alreadyMultiprocessing && nimages > 1
    ensures r > 1 ==> r == nproc || r == nimages
    ensures nproc > 1 && alreadyMultiprocessing && nimages >= 1 ==> r == 1
  {
    var p := if nproc > 1 && alreadyMultiprocessing then 1 else nproc;
    if p > nimages then nimages else p
  }

  /** min_nim: the Ring size when the image type is Single (or not given) and
      the galaxy is a Ring with a `num`; otherwise 1. `imageType` is None when
      config has no image.type; `ringNum` is Some(num) exactly when gal is a
      dict of type Ring that has `num`. */
  function MinImagesPerTask(imageType: Option<string>, ringNum: Option<int>): (m: int)
    ensures ringNum.None? ==> m == 1
    ensures imageType.Some? && imageType.value != "Single" ==> m == 1
    ensures ringNum.Some? && (imageType.None? || imageType.value == "Single") ==> m == ringNum.value
  {
    if (imageType.None? || imageType.value == "Single") && ringNum.Some? then ringNum.value else 1
  }

  // ---------------------------------------------------------------------------
  // Chunk size

  /** The integer square root: the largest s with s*s <= n. */
  function ISqrt(n: nat): (s: nat)
    ensures s * s <= n < (s + 1) * (s + 1)
  {
    if n == 0 then 0
    else
      var r := ISqrt(n - 1);
      if (r + 1) * (r + 1) <= n then r + 1 else r
  }

  lemma DivBounds(a: nat, b: nat)
    requires b > 0
    ensures (a / b) * b <= a < (a / b + 1) * b
  {
  }

  /** For integer s, s*s <= floor(a/b) exactly when s*s*b <= a, so
      int(sqrt(float(a)/float(b))) is the largest s with s*s*b <= a. */
  lemma SqrtOfRatio(a: nat, b: nat, s: nat)
    requires b > 0 && s == ISqrt(a / b)
    ensures s * s * b <= a < (s + 1) * (s + 1) * b
  {
    var q := a / b;
    DivBounds(a, b);
    assert s * s <= q;
    assert s * s * b <= q * b by {
      MulLe(s * s, q, b);
    }
    assert q + 1 <= (s + 1) * (s + 1);
    assert (q + 1) * b <= (s + 1) * (s + 1) * b by {
      MulLe(q + 1, (s + 1) * (s + 1), b);
    }
  }

  lemma MulLe(x: int, y: int, b: nat)
    requires x <= y
    ensures x * b <= y * b
  {
  }

  /** nim_per_task (lines 111-125), in the parallel branch where
      1 < nproc <= nimages. max_nim = nimages / nproc is Python 2 integer
      division. A Ring size <= 0 makes the float division by zero or the
      square root of a negative number raise. The chunk is always a whole
      number of Rings. */
  function ChunkSize(nimages: nat, nproc: int, minNim: int): (r: Result<nat>)
    requires 1 < nproc <= nimages
    ensures r.Err? <==> minNim <= 0
    ensures r.Err? ==> r.error == BadRingNum
    ensures r.Ok? ==> r.value > 0 && exists s: nat :: s >= 1 && r.value == minNim * s
    ensures r.Ok? && nimages / nproc < minNim ==> r.value == minNim
    ensures r.Ok? && nimages / nproc >= minNim ==>
              r.value <= nimages / nproc &&
              exists s: nat :: r.value == minNim * s &&
                s * s * minNim <= nimages / nproc < (s + 1) * (s + 1) * minNim
  {
    var maxNim := nimages / nproc;
    if maxNim < minNim then
      assert minNim == minNim * 1;
      Ok(minNim)
    else if minNim <= 0 then Err(BadRingNum)
    else
      var s := ISqrt(maxNim / minNim);
      RootChunk(maxNim, minNim);
      Ok(minNim * s)
  }

  /** The facts about min_nim * int(sqrt(max_nim / min_nim)) when max_nim >= min_nim > 0. */
  lemma RootChunk(maxNim: nat, minNim: int)
    requires 0 < minNim <= maxNim
    ensures var s := ISqrt(maxNim / minNim);
            s >= 1 &&
            s * s * minNim <= maxNim < (s + 1) * (s + 1) * minNim &&
            0 < minNim * s <= maxNim
  {
    var s := ISqrt(maxNim / minNim);
    SqrtOfRatio(maxNim, minNim, s);
    DivAtLeastOne(maxNim, minNim);
    ISqrtPositive(maxNim / minNim);
    assert s >= 1;
    SquareAtLeast(s, minNim);
  }

  lemma SquareAtLeast(s: nat, m: nat)
    requires s >= 1
    ensures m * s <= s * s * m
  {
    MulLe(1, s, m * s);
    assert s * (m * s) == s * s * m;
  }

  lemma DivAtLeastOne(a: nat, b: int)
    requires 0 < b <= a
    ensures a / b >= 1
  {
    DivBounds(a, b);
  }

  lemma ISqrtPositive(n: nat)
    requires n >= 1
    ensures ISqrt(n) >= 1
  {
    var r := ISqrt(n - 1);
    if r == 0 {
      assert (r + 1) * (r + 1) == 1;
    }
  }

  // ---------------------------------------------------------------------------
  // The task list

  /** One job: (image_num+k, obj_num, nim1, k). */
  datatype Task = Task(imageNum: int, objNum: int, count: nat, start: nat)

  /** Sum of a sequence of object counts. */
  function Sum(s: seq<int>): int
  {
    if s == [] then 0 else Sum(s[..|s| - 1]) + s[|s| - 1]
  }

  lemma {:induction false} SumSplit(s: seq<int>, a: nat, b: nat)
    requires a <= b <= |s|
    ensures Sum(s[..b]) == Sum(s[..a]) + Sum(s[a..b])
    decreases b - a
  {
    if a < b {
      SumSplit(s, a, b - 1);
      assert s[..b][..b - 1] == s[..b - 1];
      assert s[a..b][..b - 1 - a] == s[a..b - 1];
    } else {
      assert s[a..b] == [];
    }
  }

  /** The obj_num the serial loop holds on reaching image q of the batch. */
  function ObjNumAt(objNum: int, nobj: seq<int>, q: nat): int
    requires q <= |nobj|
  {
    objNum + Sum(nobj[..q])
  }

  /** The tasks the loop of lines 131-135 queues from start k on: one per
      k, k+c, k+2c, ... below nimages, each of min(c, nimages-k) images,
      carrying the obj_num accumulated over all earlier images. */
  function TasksFrom(nimages: nat, c: nat, imageNum: int, objNum: int, nobj: seq<int>, k: nat): seq<Task>
    requires c > 0 && |nobj| == nimages
    decreases nimages - k
  {
    if k >= nimages then []
    else
      [Task(imageNum + k, ObjNumAt(objNum, nobj, k), if c < nimages - k then c else nimages - k, k)]
      + TasksFrom(nimages, c, imageNum, objNum, nobj, k + c)
  }

  function Tasks(nimages: nat, c: nat, imageNum: int, objNum: int, nobj: seq<int>): seq<Task>
    requires c > 0 && |nobj| == nimages
  {
    TasksFrom(nimages, c, imageNum, objNum, nobj, 0)
  }

  /** The shape of the task list: the first task starts at k, each holds
      min(c, nimages - start) images, the last one ends at nimages, and each
      carries the image_num and the serial obj_num of its start. */
  lemma {:induction false} TasksShape(nimages: nat, c: nat, imageNum: int, objNum: int, nobj: seq<int>, k: nat)
    requires c > 0 && |nobj| == nimages
    ensures var ts := TasksFrom(nimages, c, imageNum, objNum, nobj, k);
            (|ts| > 0 <==> k < nimages) &&
            (|ts| > 0 ==> ts[0].start == k) &&
            (forall t :: 0 <= t < |ts| ==>
               k <= ts[t].start && ts[t].count > 0 && ts[t].start + ts[t].count <= nimages &&
               ts[t].count == (if c < nimages - ts[t].start then c else nimages - ts[t].start) &&
               ts[t].imageNum == imageNum + ts[t].start &&
               ts[t].objNum == ObjNumAt(objNum, nobj, ts[t].start)) &&
            (|ts| > 0 ==> ts[|ts| - 1].start + ts[|ts| - 1].count == nimages)
    decreases nimages - k
  {
    var ts := TasksFrom(nimages, c, imageNum, objNum, nobj, k);
    if k < nimages {
      var rest := TasksFrom(nimages, c, imageNum, objNum, nobj, k + c);
      TasksShape(nimages, c, imageNum, objNum, nobj, k + c);
      assert ts == [ts[0]] + rest;
      forall t | 1 <= t < |ts| ensures ts[t] == rest[t - 1] {
      }
    }
  }

  /** Each next task starts c further on. */
  lemma {:induction false} TasksAdjacent(nimages: nat, c: nat, imageNum: int, objNum: int, nobj: seq<int>, k: nat, t: nat)
    requires c > 0 && |nobj| == nimages
    requires t + 1 < |TasksFrom(nimages, c, imageNum, objNum, nobj, k)|
    ensures var ts := TasksFrom(nimages, c, imageNum, objNum, nobj, k);
            ts[t + 1].start == ts[t].start + c
    decreases t
  {
    var ts := TasksFrom(nimages, c, imageNum, objNum, nobj, k);
    var rest := TasksFrom(nimages, c, imageNum, objNum, nobj, k + c);
    assert ts == [ts[0]] + rest;
    assert ts[t + 1] == rest[t];
    if t == 0 {
      assert ts[0].start == k && rest[0].start == k + c;
    } else {
      TasksAdjacent(nimages, c, imageNum, objNum, nobj, k + c, t - 1);
      assert ts[t] == rest[t - 1];
    }
  }

  /** The obj_num of the next task is that of the previous one advanced by
      the object counts of all the previous task's images (lines 133-135). */
  lemma NextTaskObjNum(nimages: nat, c: nat, imageNum: int, objNum: int, nobj: seq<int>, t: nat)
    requires c > 0 && |nobj| == nimages
    requires t + 1 < |Tasks(nimages, c, imageNum, objNum, nobj)|
    ensures var ts := Tasks(nimages, c, imageNum, objNum, nobj);
            ts[t].start + ts[t].count == ts[t + 1].start <= nimages &&
            ts[t + 1].objNum == ts[t].objNum + Sum(nobj[ts[t].start..ts[t].start + ts[t].count])
  {
    TasksShape(nimages, c, imageNum, objNum, nobj, 0);
    TasksAdjacent(nimages, c, imageNum, objNum, nobj, 0, t);
    var ts := Tasks(nimages, c, imageNum, objNum, nobj);
    var a, b := ts[t], ts[t + 1];
    assert b.start == a.start + c && b.start < nimages;
    assert a.count == c;
    SumSplit(nobj, a.start, b.start);
  }

  /** The index of the task that holds image q (k <= q < nimages). */
  function TaskIndex(nimages: nat, c: nat, k: nat, q: nat): nat
    requires c > 0 && k <= q < nimages
    decreases nimages - k
  {
    if q < k + c then 0 else 1 + TaskIndex(nimages, c, k + c, q)
  }

  /** Every task queued from k on starts at k or later. */
  lemma {:induction false} TasksStartFrom(nimages: nat, c: nat, imageNum: int, objNum: int, nobj: seq<int>, k: nat)
    requires c > 0 && |nobj| == nimages
    ensures forall t :: 0 <= t < |TasksFrom(nimages, c, imageNum, objNum, nobj, k)| ==>
              k <= TasksFrom(nimages, c, imageNum, objNum, nobj, k)[t].start
    decreases nimages - k
  {
    var ts := TasksFrom(nimages, c, imageNum, objNum, nobj, k);
    if k < nimages {
      var rest := TasksFrom(nimages, c, imageNum, objNum, nobj, k + c);
      TasksStartFrom(nimages, c, imageNum, objNum, nobj, k + c);
      assert ts == [ts[0]] + rest && ts[0].start == k;
      forall t | 0 <= t < |ts| ensures k <= ts[t].start {
        if t > 0 { assert ts[t] == rest[t - 1]; }
      }
    }
  }

  /** Coverage: image q lies in task TaskIndex(q), and in no other task. */
  lemma {:induction false} TasksCover(nimages: nat, c: nat, imageNum: int, objNum: int, nobj: seq<int>, k: nat, q: nat)
    requires c > 0 && |nobj| == nimages && k <= q < nimages
    ensures var ts := TasksFrom(nimages, c, imageNum, objNum, nobj, k);
            var t := TaskIndex(nimages, c, k, q);
            t < |ts| && ts[t].start <= q < ts[t].start + ts[t].count &&
            forall u :: 0 <= u < |ts| && ts[u].start <= q < ts[u].start + ts[u].count ==> u == t
    decreases nimages - k
  {
    var ts := TasksFrom(nimages, c, imageNum, objNum, nobj, k);
    var rest := TasksFrom(nimages, c, imageNum, objNum, nobj, k + c);
    var head := ts[0];
    assert ts == [head] + rest;
    assert head.start == k && head.count <= c;
    assert forall u :: 1 <= u < |ts| ==> ts[u] == rest[u - 1];
    if q < k + c {
      TasksStartFrom(nimages, c, imageNum, objNum, nobj, k + c);
      assert TaskIndex(nimages, c, k, q) == 0;
      forall u | 1 <= u < |ts| ensures q < ts[u].start {
        assert ts[u] == rest[u - 1];
      }
    } else {
      TasksCover(nimages, c, imageNum, objNum, nobj, k + c, q);
      var t' := TaskIndex(nimages, c, k + c, q);
      assert TaskIndex(nimages, c, k, q) == 1 + t';
      assert ts[1 + t'] == rest[t'];
    }
  }

  /** Builds the task queue (lines 130-135), accumulating obj_num over the
      images of each task as it goes. */
  method MakeTasks(nimages: nat, c: nat, imageNum: int, objNum: int, nobj: seq<int>)
    returns (tasks: seq<Task>)
    requires c > 0 && |nobj| == nimages
    ensures tasks == Tasks(nimages, c, imageNum, objNum, nobj)
  {
    tasks := [];
    var obj := objNum;
    var k := 0;
    while k < nimages
      invariant k <= nimages ==> obj == ObjNumAt(objNum, nobj, k)
      invariant tasks + TasksFrom(nimages, c, imageNum, objNum, nobj, k) == Tasks(nimages, c, imageNum, objNum, nobj)
      decreases nimages - k
    {
      var nim1 := if c < nimages - k then c else nimages - k;
      assert TasksFrom(nimages, c, imageNum, objNum, nobj, k) ==
             [Task(imageNum + k, obj, nim1, k)] + TasksFrom(nimages, c, imageNum, objNum, nobj, k + c);
      tasks := tasks + [Task(imageNum + k, obj, nim1, k)];
      obj := AdvanceObjNum(objNum, nobj, k, nim1, obj);
      k := k + c;
    }
  }

  /** Lines 133-135: obj_num advanced over the nim1 images from k on. */
  method AdvanceObjNum(objNum: int, nobj: seq<int>, k: nat, nim1: nat, obj: int) returns (obj': int)
    requires k + nim1 <= |nobj| && obj == ObjNumAt(objNum, nobj, k)
    ensures obj' == ObjNumAt(objNum, nobj, k + nim1)
  {
    obj' := obj;
    var i := 0;
    while i < nim1
      invariant 0 <= i <= nim1
      invariant obj' == ObjNumAt(objNum, nobj, k + i)
    {
      ObjNumStep(objNum, nobj, k + i);
      obj' := obj' + nobj[k + i];
      i := i + 1;
    }
  }

  /** Advancing past image q adds its object count. */
  lemma ObjNumStep(objNum: int, nobj: seq<int>, q: nat)
    requires q < |nobj|
    ensures ObjNumAt(objNum, nobj, q + 1) == ObjNumAt(objNum, nobj, q) + nobj[q]
  {
    assert nobj[..q + 1][..q] == nobj[..q];
  }

  // ---------------------------------------------------------------------------
  // What the batch must produce

  /** Image q of the batch as the serial loop builds it. */
  function Expected<Img>(build: (int, int) -> Result<Img>, imageNum: int, objNum: int, nobj: seq<int>, q: nat): Result<Img>
    requires q <= |nobj|
  {
    build(imageNum + q, ObjNumAt(objNum, nobj, q))
  }

  /** Every image of positions [a, b) builds without raising. */
  predicate AllBuild<Img>(build: (int, int) -> Result<Img>, imageNum: int, objNum: int, nobj: seq<int>, a: nat, b: nat)
    requires a <= b <= |nobj|
  {
    forall q :: a <= q < b ==> Expected(build, imageNum, objNum, nobj, q).Ok?
  }

  /** images holds, in order, the images of positions [a, a + |images|). */
  ghost predicate BuiltInOrder<Img>(images: seq<Img>, build: (int, int) -> Result<Img>, imageNum: int, objNum: int, nobj: seq<int>, a: nat)
    requires a + |images| <= |nobj|
  {
    forall i :: 0 <= i < |images| ==> Expected(build, imageNum, objNum, nobj, a + i) == Ok(images[i])
  }

  /** The error is the one some image of positions [a, b) raised. */
  predicate RaisedBy<Img>(e: Error, build: (int, int) -> Result<Img>, imageNum: int, objNum: int, nobj: seq<int>, a: nat, b: nat)
    requires a <= b <= |nobj|
  {
    exists q :: a <= q < b && Expected(build, imageNum, objNum, nobj, q) == Err(e)
  }

  /** The error is the one the first failing image of positions [a, b)
      raised: every image before it builds. */
  predicate FirstRaised<Img>(e: Error, build: (int, int) -> Result<Img>, imageNum: int, objNum: int, nobj: seq<int>, a: nat, b: nat)
    requires a <= b <= |nobj|
  {
    exists q :: a <= q < b && AllBuild(build, imageNum, objNum, nobj, a, q) &&
                Expected(build, imageNum, objNum, nobj, q) == Err(e)
  }

  /** The first error of a range is an error some image of any enclosing range raised. */
  lemma FirstIsRaised<Img>(e: Error, build: (int, int) -> Result<Img>, imageNum: int, objNum: int, nobj: seq<int>,
                           a: nat, b: nat, a0: nat, b0: nat)
    requires a0 <= a <= b <= b0 <= |nobj|
    requires FirstRaised(e, build, imageNum, objNum, nobj, a, b)
    ensures RaisedBy(e, build, imageNum, objNum, nobj, a0, b0)
  {
    var q :| a <= q < b && AllBuild(build, imageNum, objNum, nobj, a, q) &&
             Expected(build, imageNum, objNum, nobj, q) == Err(e);
  }

  // ---------------------------------------------------------------------------
  // The worker

  /** A worker doing one task (lines 56-67): builds its images in order,
      advancing obj_num by each image's object count; any exception becomes
      the task's result. */
  method RunTask<Img>(task: Task, build: (int, int) -> Result<Img>, imageNum: int, objNum: int, nobj: seq<int>)
    returns (r: Result<seq<Img>>)
    requires task.start + task.count <= |nobj|
    requires task.imageNum == imageNum + task.start
    requires task.objNum == ObjNumAt(objNum, nobj, task.start)
    ensures r.Ok? <==> AllBuild(build, imageNum, objNum, nobj, task.start, task.start + task.count)
    ensures r.Ok? ==> |r.value| == task.count && BuiltInOrder(r.value, build, imageNum, objNum, nobj, task.start)
    ensures r.Err? ==> FirstRaised(r.error, build, imageNum, objNum, nobj, task.start, task.start + task.count)
  {
    var results: seq<Img> := [];
    var imgNum := task.imageNum;
    var obj := task.objNum;
    var k := 0;
    while k < task.count
      invariant 0 <= k <= task.count && |results| == k
      invariant imgNum == imageNum + task.start + k
      invariant obj == ObjNumAt(objNum, nobj, task.start + k)
      invariant AllBuild(build, imageNum, objNum, nobj, task.start, task.start + k)
      invariant BuiltInOrder(results, build, imageNum, objNum, nobj, task.start)
    {
      var im := build(imgNum, obj);
      assert im == Expected(build, imageNum, objNum, nobj, task.start + k);
      if im.Err? {
        assert AllBuild(build, imageNum, objNum, nobj, task.start, task.start + k);
        return Err(im.error);
      }
      ObjNumStep(objNum, nobj, task.start + k);
      obj := obj + nobj[task.start + k];
      imgNum := imgNum + 1;
      results := results + [im.value];
      k := k + 1;
    }
    return Ok(results);
  }

  /** The worker's size lookup `ys, xs = im[0].array.shape` (line 68)
      succeeds on every image of positions [a, b). `shapeOk(im)` says whether
      it succeeds on image im; that depends on Image indexing, which is not
      part of this model. */
  predicate ShapesOk<Img>(build: (int, int) -> Result<Img>, shapeOk: Img -> bool,
                          imageNum: int, objNum: int, nobj: seq<int>, a: nat, b: nat)
    requires a <= b <= |nobj|
  {
    forall q :: a <= q < b ==> Expected(build, imageNum, objNum, nobj, q).Ok? ==>
                 shapeOk(Expected(build, imageNum, objNum, nobj, q).value)
  }

  /** The first failure of positions [a, b) in the order the worker as
      written meets them: every earlier image builds and passes the lookup,
      and image q either raises e or builds and fails the lookup, which
      raises ShapeLookupFailed. */
  predicate FirstFailure<Img>(e: Error, build: (int, int) -> Result<Img>, shapeOk: Img -> bool,
                              imageNum: int, objNum: int, nobj: seq<int>, a: nat, b: nat)
    requires a <= b <= |nobj|
  {
    exists q :: a <= q < b && AllBuild(build, imageNum, objNum, nobj, a, q) &&
                ShapesOk(build, shapeOk, imageNum, objNum, nobj, a, q) &&
                (Expected(build, imageNum, objNum, nobj, q) == Err(e) ||
                 (Expected(build, imageNum, objNum, nobj, q).Ok? &&
                  !shapeOk(Expected(build, imageNum, objNum, nobj, q).value) && e == ShapeLookupFailed))
  }

  /** The worker as written (lines 61-68): after each image it looks up
      `im[0].array.shape` outside the logging guard, inside the `try`, so a
      failing lookup becomes the task's error result. RunTask is the worker
      without that lookup, as the serial loop does it (line 202 runs only
      when logging is on). */
  method RunTaskAsWritten<Img>(task: Task, build: (int, int) -> Result<Img>, shapeOk: Img -> bool,
                               imageNum: int, objNum: int, nobj: seq<int>)
    returns (r: Result<seq<Img>>)
    requires task.start + task.count <= |nobj|
    requires task.imageNum == imageNum + task.start
    requires task.objNum == ObjNumAt(objNum, nobj, task.start)
    ensures r.Ok? <==> AllBuild(build, imageNum, objNum, nobj, task.start, task.start + task.count) &&
                       ShapesOk(build, shapeOk, imageNum, objNum, nobj, task.start, task.start + task.count)
    ensures r.Ok? ==> |r.value| == task.count && BuiltInOrder(r.value, build, imageNum, objNum, nobj, task.start)
    ensures r.Err? ==> FirstFailure(r.error, build, shapeOk, imageNum, objNum, nobj, task.start, task.start + task.count)
  {
    var results: seq<Img> := [];
    var imgNum := task.imageNum;
    var obj := task.objNum;
    var k := 0;
    while k < task.count
      invariant 0 <= k <= task.count && |results| == k
      invariant imgNum == imageNum + task.start + k
      invariant obj == ObjNumAt(objNum, nobj, task.start + k)
      invariant AllBuild(build, imageNum, objNum, nobj, task.start, task.start + k)
      invariant ShapesOk(build, shapeOk, imageNum, objNum, nobj, task.start, task.start + k)
      invariant BuiltInOrder(results, build, imageNum, objNum, nobj, task.start)
    {
      var im := build(imgNum, obj);
      assert im == Expected(build, imageNum, objNum, nobj, task.start + k);
      if im.Err? {
        assert AllBuild(build, imageNum, objNum, nobj, task.start, task.start + k);
        return Err(im.error);
      }
      ObjNumStep(objNum, nobj, task.start + k);
      obj := obj + nobj[task.start + k];
      imgNum := imgNum + 1;
      results := results + [im.value];
      if !shapeOk(im.value) {
        assert ShapesOk(build, shapeOk, imageNum, objNum, nobj, task.start, task.start + k);
        return Err(ShapeLookupFailed);
      }
      assert shapeOk(Expected(build, imageNum, objNum, nobj, task.start + k).value);
      k := k + 1;
    }
    return Ok(results);
  }

  /** A one-image task (say nimages = 2, nproc = 2, chunk size 1) whose image builds but whose `im[0]` lookup raises:
      every image builds, so the serial branch succeeds (BuildSerial), yet
      the worker as written returns an error for the task. */
  lemma ShapeLookupBreaksAgreement()
    ensures var build := (i: int, o: int) => Ok(0);
            AllBuild(build, 0, 0, [1], 0, 1) &&
            !ShapesOk(build, (im: int) => im != 0, 0, 0, [1], 0, 1)
  {
    var build := (i: int, o: int) => Ok(0);
    assert Expected(build, 0, 0, [1], 0) == Ok(0);
  }

  // ---------------------------------------------------------------------------
  // The two branches

  /** The nproc == 1 branch (lines 191-205). */
  method BuildSerial<Img>(nimages: nat, build: (int, int) -> Result<Img>, imageNum: int, objNum: int, nobj: seq<int>)
    returns (r: Result<seq<Img>>)
    requires |nobj| == nimages
    ensures r.Ok? <==> AllBuild(build, imageNum, objNum, nobj, 0, nimages)
    ensures r.Ok? ==> |r.value| == nimages && BuiltInOrder(r.value, build, imageNum, objNum, nobj, 0)
    ensures r.Err? ==> FirstRaised(r.error, build, imageNum, objNum, nobj, 0, nimages)
  {
    var images: seq<Img> := [];
    var imgNum := imageNum;
    var obj := objNum;
    var k := 0;
    while k < nimages
      invariant 0 <= k <= nimages && |images| == k
      invariant imgNum == imageNum + k
      invariant obj == ObjNumAt(objNum, nobj, k)
      invariant AllBuild(build, imageNum, objNum, nobj, 0, k)
      invariant BuiltInOrder(images, build, imageNum, objNum, nobj, 0)
    {
      var image := build(imgNum, obj);
      if image.Err? {
        assert Expected(build, imageNum, objNum, nobj, k) == image;
        assert AllBuild(build, imageNum, objNum, nobj, 0, k);
        return Err(image.error);
      }
      images := images + [image.value];
      ObjNumStep(objNum, nobj, k);
      obj := obj + nobj[k];
      imgNum := imgNum + 1;
      k := k + 1;
    }
    return Ok(images);
  }

  /** `arrival` lists each of the m tasks exactly once. */
  predicate IsArrivalOrder(arrival: seq<nat>, m: nat) {
    |arrival| == m &&
    (forall a :: 0 <= a < |arrival| ==> arrival[a] < m) &&
    (forall a, b :: 0 <= a < b < |arrival| ==> arrival[a] != arrival[b]) &&
    (forall t :: 0 <= t < m ==> t in arrival)
  }

  /** Lines 170-173: a task's results go to slots k0, k0+1, ... of the
      pre-sized list; no other slot changes. */
  method Place<Img>(images: array<Option<Img>>, results: seq<Img>, k0: nat)
    requires k0 + |results| <= images.Length
    modifies images
    ensures forall q :: 0 <= q < images.Length ==>
              images[q] == if k0 <= q < k0 + |results| then Some(results[q - k0]) else old(images[q])
  {
    var k := k0;
    var n := 0;
    while n < |results|
      invariant 0 <= n <= |results| && k == k0 + n
      invariant forall q :: 0 <= q < images.Length ==>
                  images[q] == if k0 <= q < k then Some(results[q - k0]) else old(images[q])
    {
      images[k] := Some(results[n]);
      k := k + 1;
      n := n + 1;
    }
  }

  /** The slots of the tasks in `received` hold their images, the others are still empty. */
  ghost predicate Filled<Img>(images: array<Option<Img>>, received: set<nat>, c: nat,
                              build: (int, int) -> Result<Img>, imageNum: int, objNum: int, nobj: seq<int>)
    requires c > 0 && images.Length == |nobj|
    reads images
  {
    forall q :: 0 <= q < images.Length ==>
      if TaskIndex(images.Length, c, 0, q) in received
      then images[q].Some? && Expected(build, imageNum, objNum, nobj, q) == Ok(images[q].value)
      else images[q].None?
  }

  /** One round of the drain loop (lines 160-169): the result of task t
      either is an exception, which is raised, or is stored in place. */
  method Receive<Img>(images: array<Option<Img>>, ghost received: set<nat>, t: nat, task: Task, c: nat,
                      build: (int, int) -> Result<Img>, imageNum: int, objNum: int, nobj: seq<int>)
    returns (r: Result<()>)
    requires c > 0 && images.Length == |nobj|
    requires task.start + task.count <= |nobj|
    requires task.imageNum == imageNum + task.start && task.objNum == ObjNumAt(objNum, nobj, task.start)
    requires forall q :: 0 <= q < |nobj| ==> (TaskIndex(|nobj|, c, 0, q) == t <==> task.start <= q < task.start + task.count)
    requires t !in received
    requires Filled(images, received, c, build, imageNum, objNum, nobj)
    modifies images
    ensures r.Ok? ==> AllBuild(build, imageNum, objNum, nobj, task.start, task.start + task.count)
    ensures r.Ok? ==> Filled(images, received + {t}, c, build, imageNum, objNum, nobj)
    ensures r.Err? ==> FirstRaised(r.error, build, imageNum, objNum, nobj, task.start, task.start + task.count)
  {
    var res := RunTask(task, build, imageNum, objNum, nobj);
    if res.Err? {
      return Err(res.error);
    }
    Store(images, received, t, task, res.value, c, build, imageNum, objNum, nobj);
    return Ok(());
  }

  /** Lines 170-173 for task t: its images, in order, go to its slots. */
  method Store<Img>(images: array<Option<Img>>, ghost received: set<nat>, t: nat, task: Task, results: seq<Img>, c: nat,
                    build: (int, int) -> Result<Img>, imageNum: int, objNum: int, nobj: seq<int>)
    requires c > 0 && images.Length == |nobj| && t !in received
    requires task.start + task.count <= |nobj| && |results| == task.count
    requires forall q :: 0 <= q < |nobj| ==> (TaskIndex(|nobj|, c, 0, q) == t <==> task.start <= q < task.start + task.count)
    requires BuiltInOrder(results, build, imageNum, objNum, nobj, task.start)
    requires Filled(images, received, c, build, imageNum, objNum, nobj)
    modifies images
    ensures Filled(images, received + {t}, c, build, imageNum, objNum, nobj)
  {
    ghost var before := images[..];
    assert forall q :: 0 <= q < |before| ==> before[q] == images[q];
    Place(images, results, task.start);
    FillTask(images, before, received, t, task, results, c, build, imageNum, objNum, nobj);
  }

  /** Storing task t's images in its slots of a batch filled for `received`
      gives a batch filled for received + {t}. */
  lemma FillTask<Img>(images: array<Option<Img>>, before: seq<Option<Img>>, received: set<nat>, t: nat, task: Task,
                      results: seq<Img>, c: nat, build: (int, int) -> Result<Img>, imageNum: int, objNum: int, nobj: seq<int>)
    requires c > 0 && images.Length == |nobj| == |before| && t !in received
    requires task.start + task.count <= |nobj| && |results| == task.count
    requires forall q :: 0 <= q < |nobj| ==> (TaskIndex(|nobj|, c, 0, q) == t <==> task.start <= q < task.start + task.count)
    requires BuiltInOrder(results, build, imageNum, objNum, nobj, task.start)
    requires forall q :: 0 <= q < |before| ==>
               if TaskIndex(|before|, c, 0, q) in received
               then before[q].Some? && Expected(build, imageNum, objNum, nobj, q) == Ok(before[q].value)
               else before[q].None?
    requires forall q :: 0 <= q < images.Length ==>
               images[q] == if task.start <= q < task.start + |results| then Some(results[q - task.start]) else before[q]
    ensures Filled(images, received + {t}, c, build, imageNum, objNum, nobj)
  {
    forall q | 0 <= q < images.Length
      ensures if TaskIndex(images.Length, c, 0, q) in received + {t}
              then images[q].Some? && Expected(build, imageNum, objNum, nobj, q) == Ok(images[q].value)
              else images[q].None?
    {
      if task.start <= q < task.start + task.count {
        assert Expected(build, imageNum, objNum, nobj, task.start + (q - task.start)) == Ok(results[q - task.start]);
      }
    }
  }

  /** Task t of the queue: its images are in the batch, it carries their
      image_num and obj_num, and its images are exactly those whose task
      index is t. */
  lemma TaskFacts(c: nat, imageNum: int, objNum: int, nobj: seq<int>, t: nat)
    requires c > 0 && t < |Tasks(|nobj|, c, imageNum, objNum, nobj)|
    ensures var task := Tasks(|nobj|, c, imageNum, objNum, nobj)[t];
            task.start + task.count <= |nobj| &&
            task.imageNum == imageNum + task.start &&
            task.objNum == ObjNumAt(objNum, nobj, task.start) &&
            forall q :: 0 <= q < |nobj| ==> (TaskIndex(|nobj|, c, 0, q) == t <==> task.start <= q < task.start + task.count)
  {
    TasksShape(|nobj|, c, imageNum, objNum, nobj, 0);
    forall q | 0 <= q < |nobj|
      ensures TaskIndex(|nobj|, c, 0, q) == t <==>
              Tasks(|nobj|, c, imageNum, objNum, nobj)[t].start <= q < Tasks(|nobj|, c, imageNum, objNum, nobj)[t].start + Tasks(|nobj|, c, imageNum, objNum, nobj)[t].count
    {
      TasksCover(|nobj|, c, imageNum, objNum, nobj, 0, q);
    }
  }

  /** The nproc > 1 branch (lines 101-175) with chunk size c: the images list
      is pre-sized, the drain loop takes one result per task, in the order
      `arrival` gives, and stores each task's images at its own slots. The
      first error result received is raised. */
  method BuildParallel<Img>(nimages: nat, c: nat, build: (int, int) -> Result<Img>, imageNum: int, objNum: int,
                            nobj: seq<int>, arrival: seq<nat>)
    returns (r: Result<seq<Img>>)
    requires c > 0 && |nobj| == nimages
    requires IsArrivalOrder(arrival, |Tasks(nimages, c, imageNum, objNum, nobj)|)
    ensures r.Ok? <==> AllBuild(build, imageNum, objNum, nobj, 0, nimages)
    ensures r.Ok? ==> |r.value| == nimages && BuiltInOrder(r.value, build, imageNum, objNum, nobj, 0)
    ensures r.Err? ==> RaisedBy(r.error, build, imageNum, objNum, nobj, 0, nimages)
    ensures r.Err? ==> FirstErrorReceived(r.error, Tasks(nimages, c, imageNum, objNum, nobj), arrival, build, imageNum, objNum, nobj)
  {
    var tasks := MakeTasks(nimages, c, imageNum, objNum, nobj);
    var images := new Option<Img>[nimages](_ => None);
    ghost var received: set<nat> := {};
    var recv := 0;
    var i := 0;
    while i < nimages
      invariant recv <= |tasks| && tasks[recv..] == TasksFrom(nimages, c, imageNum, objNum, nobj, i)
      invariant received == set a | 0 <= a < recv :: arrival[a]
      invariant Filled(images, received, c, build, imageNum, objNum, nobj)
      invariant forall b :: 0 <= b < recv ==> TaskBuilds(tasks, arrival[b], build, imageNum, objNum, nobj)
      decreases nimages - i
    {
      assert tasks[recv..] != [];
      var t := arrival[recv];
      TaskFacts(c, imageNum, objNum, nobj, t);
      var res := Receive(images, received, t, tasks[t], c, build, imageNum, objNum, nobj);
      if res.Err? {
        assert TaskRaises(res.error, tasks, arrival[recv], build, imageNum, objNum, nobj);
        FirstIsRaised(res.error, build, imageNum, objNum, nobj, tasks[t].start, tasks[t].start + tasks[t].count, 0, nimages);
        return Err(res.error);
      }
      assert TaskBuilds(tasks, t, build, imageNum, objNum, nobj);
      assert tasks[recv + 1..] == tasks[recv..][1..];
      received := received + {t};
      recv := recv + 1;
      i := i + c;
    }
    AllReceived(nimages, c, imageNum, objNum, nobj, arrival, received);
    var out := seq(nimages, q requires 0 <= q < nimages && images[q].Some? reads images => images[q].value);
    return Ok(out);
  }

  /** Task t of the queue builds all its images. */
  predicate TaskBuilds<Img>(tasks: seq<Task>, t: nat, build: (int, int) -> Result<Img>, imageNum: int, objNum: int, nobj: seq<int>) {
    t < |tasks| && tasks[t].start + tasks[t].count <= |nobj| &&
    AllBuild(build, imageNum, objNum, nobj, tasks[t].start, tasks[t].start + tasks[t].count)
  }

  /** The result of task t of the queue is error e: the first its images raise. */
  predicate TaskRaises<Img>(e: Error, tasks: seq<Task>, t: nat, build: (int, int) -> Result<Img>, imageNum: int, objNum: int, nobj: seq<int>) {
    t < |tasks| && tasks[t].start + tasks[t].count <= |nobj| &&
    FirstRaised(e, build, imageNum, objNum, nobj, tasks[t].start, tasks[t].start + tasks[t].count)
  }

  /** e is the first error result of the drain loop (lines 160-168): the
      results received before it, in arrival order, all hold images, and
      the next one holds e. */
  predicate FirstErrorReceived<Img>(e: Error, tasks: seq<Task>, arrival: seq<nat>, build: (int, int) -> Result<Img>,
                                    imageNum: int, objNum: int, nobj: seq<int>) {
    exists a :: 0 <= a < |arrival| &&
                (forall b :: 0 <= b < a ==> TaskBuilds(tasks, arrival[b], build, imageNum, objNum, nobj)) &&
                TaskRaises(e, tasks, arrival[a], build, imageNum, objNum, nobj)
  }

  /** Once every task has arrived, every slot's task has been received. */
  lemma AllReceived(nimages: nat, c: nat, imageNum: int, objNum: int, nobj: seq<int>, arrival: seq<nat>, received: set<nat>)
    requires c > 0 && |nobj| == nimages
    requires IsArrivalOrder(arrival, |Tasks(nimages, c, imageNum, objNum, nobj)|)
    requires received == set a | 0 <= a < |arrival| :: arrival[a]
    ensures forall q :: 0 <= q < nimages ==> TaskIndex(nimages, c, 0, q) in received
  {
    forall q | 0 <= q < nimages
      ensures TaskIndex(nimages, c, 0, q) in received
    {
      TasksCover(nimages, c, imageNum, objNum, nobj, 0, q);
      var t := TaskIndex(nimages, c, 0, q);
      assert t in arrival;
      var a :| 0 <= a < |arrival| && arrival[a] == t;
    }
  }

  /** BuildImages: the number of processes decides the branch; both branches
      give the same images, in image order, or raise. min_nim is
      MinImagesPerTask of the image type and the Ring num (lines 112-117). */
  method BuildImages<Img>(nimages: nat, nproc: int, alreadyMultiprocessing: bool,
                          imageType: Option<string>, ringNum: Option<int>,
                          build: (int, int) -> Result<Img>, imageNum: int, objNum: int,
                          nobj: seq<int>, arrival: seq<nat>)
    returns (r: Result<seq<Img>>)
    requires |nobj| == nimages
    requires var p, m := EffectiveNProc(nproc, alreadyMultiprocessing, nimages), MinImagesPerTask(imageType, ringNum);
             p > 1 && m > 0 ==> IsArrivalOrder(arrival, |Tasks(nimages, ChunkSize(nimages, p, m).value, imageNum, objNum, nobj)|)
    ensures r.Ok? <==> AllBuild(build, imageNum, objNum, nobj, 0, nimages) &&
                       (EffectiveNProc(nproc, alreadyMultiprocessing, nimages) > 1 ==> MinImagesPerTask(imageType, ringNum) > 0)
    ensures r.Ok? ==> |r.value| == nimages && BuiltInOrder(r.value, build, imageNum, objNum, nobj, 0)
    ensures r.Err? ==> r.error == BadRingNum || RaisedBy(r.error, build, imageNum, objNum, nobj, 0, nimages)
    ensures EffectiveNProc(nproc, alreadyMultiprocessing, nimages) <= 1 && r.Err? ==>
              FirstRaised(r.error, build, imageNum, objNum, nobj, 0, nimages)
    ensures EffectiveNProc(nproc, alreadyMultiprocessing, nimages) > 1 && MinImagesPerTask(imageType, ringNum) <= 0 ==>
              r == Err(BadRingNum)
    ensures var p, m := EffectiveNProc(nproc, alreadyMultiprocessing, nimages), MinImagesPerTask(imageType, ringNum);
            p > 1 && m > 0 && r.Err? ==>
              FirstErrorReceived(r.error, Tasks(nimages, ChunkSize(nimages, p, m).value, imageNum, objNum, nobj), arrival,
                                 build, imageNum, objNum, nobj)
  {
    var p := EffectiveNProc(nproc, alreadyMultiprocessing, nimages);
    var minNim := MinImagesPerTask(imageType, ringNum);
    if p > 1 {
      var c :- ChunkSize(nimages, p, minNim);
      r := BuildParallel(nimages, c, build, imageNum, objNum, nobj, arrival);
    } else {
      r := BuildSerial(nimages, build, imageNum, objNum, nobj);
    }
  }

  /** Serial and parallel agree: two results that both hold the batch's
      images in order are the same list, whatever the chunk size and the
      arrival order that produced them. */
  lemma {:induction false} BranchesAgree<Img>(xs: seq<Img>, ys: seq<Img>, build: (int, int) -> Result<Img>,
                                              imageNum: int, objNum: int, nobj: seq<int>)
    requires |xs| == |ys| == |nobj|
    requires BuiltInOrder(xs, build, imageNum, objNum, nobj, 0)
    requires BuiltInOrder(ys, build, imageNum, objNum, nobj, 0)
    ensures xs == ys
  {
    forall i | 0 <= i < |xs| ensures xs[i] == ys[i] {
      assert Ok(xs[i]) == Expected(build, imageNum, objNum, nobj, 0 + i) == Ok(ys[i]);
    }
  }
}
