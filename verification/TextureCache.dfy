/**
  The cache of large textures, on values: images wait in a queue while a job loads
  them, and live in the allocated list (held) until nobody uses them any more.
 */
module TextureCache {
  import opened Options
  import opened Counting

  const TIME_TO_DELETE := 2000

  /** The clock and the deletion time are 32 bit numbers. */
  const WRAP := 0x1_0000_0000

  /** An image is known by the id of the job that loads it. */
  datatype Image = Image(id: nat, path: string, refs: nat, texture: Option<nat>, timeToDelete: nat)

  /**
    nextJob numbers the jobs; freed and completed record which images were deleted and
    which were handed their loader's texture; failed tells that an assertion has failed.
   */
  datatype Cache = Cache(queued: seq<Image>, held: seq<Image>, nextJob: nat, freed: seq<nat>, completed: seq<nat>,
    failed: bool)

  const EMPTY := Cache([], [], 0, [], [], false)

  datatype Event =
    | FirstRequest(path: string)
    | Poll(path: string)
    | Release(path: string, immediately: bool, now: nat)
    | Complete(job: nat, loaded: Option<nat>)
    | Cleanup(immediately: bool, now: nat)

  /** The first image with the path, or the length of the list. */
  function Find(images: seq<Image>, path: string): (i: nat)
    ensures i <= |images|
    ensures i < |images| ==> images[i].path == path
    ensures forall k :: 0 <= k < i ==> images[k].path != path
  {
    First(images, (m: Image) => m.path == path)
  }

  function FindJob(images: seq<Image>, job: nat): (i: nat)
    ensures i <= |images|
    ensures i < |images| ==> images[i].id == job
    ensures forall k :: 0 <= k < i ==> images[k].id != job
  {
    First(images, (m: Image) => m.id == job)
  }

  function AddRef(images: seq<Image>, i: nat): (r: seq<Image>)
    requires i < |images|
    ensures |r| == |images|
  {
    images[i := images[i].(refs := images[i].refs + 1)]
  }

  function OnFirstRequest(c: Cache, path: string): Cache {
    var a, q := Find(c.held, path), Find(c.queued, path);
    if a < |c.held| then c.(held := AddRef(c.held, a))
    else if q < |c.queued| then c.(queued := AddRef(c.queued, q))
    else c.(queued := c.queued + [Image(c.nextJob, path, 1, None, 0)], nextJob := c.nextJob + 1)
  }

  function OnRelease(c: Cache, path: string, immediately: bool, now: nat): Cache {
    var a, q := Find(c.held, path), Find(c.queued, path);
    if a < |c.held| then
      var image := c.held[a];
      if image.refs == 0 then c.(failed := true)
      else if image.refs > 1 then c.(held := c.held[a := image.(refs := image.refs - 1)])
      else if immediately then c.(held := Erase(c.held, a), freed := c.freed + [image.id])
      else c.(held := c.held[a := image.(refs := 0, timeToDelete := (now + TIME_TO_DELETE) % WRAP)])
    else if q < |c.queued| then
      var image := c.queued[q];
      if image.refs == 0 then c.(failed := true)
      else if image.refs > 1 then c.(queued := c.queued[q := image.(refs := image.refs - 1)])
      else c.(queued := Erase(c.queued, q), freed := c.freed + [image.id])
    else c
  }

  function OnComplete(c: Cache, job: nat, loaded: Option<nat>): Cache {
    var q := FindJob(c.queued, job);
    if q == |c.queued| then c
    else
      var image := c.queued[q];
      if image.texture.Some? then c.(failed := true)
      else c.(queued := Erase(c.queued, q), held := c.held + [image.(texture := loaded)],
              completed := c.completed + [job])
  }

  predicate Expired(image: Image, immediately: bool, now: nat) {
    image.refs == 0 && (immediately || image.timeToDelete < now)
  }

  function Kept(images: seq<Image>, immediately: bool, now: nat): seq<Image> {
    if images == [] then []
    else if Expired(images[0], immediately, now) then Kept(images[1..], immediately, now)
    else [images[0]] + Kept(images[1..], immediately, now)
  }

  function ExpiredIds(images: seq<Image>, immediately: bool, now: nat): seq<nat> {
    if images == [] then []
    else if Expired(images[0], immediately, now) then [images[0].id] + ExpiredIds(images[1..], immediately, now)
    else ExpiredIds(images[1..], immediately, now)
  }

  function OnCleanup(c: Cache, immediately: bool, now: nat): Cache {
    c.(held := Kept(c.held, immediately, now), freed := c.freed + ExpiredIds(c.held, immediately, now))
  }

  function Step(c: Cache, e: Event): Cache {
    match e
    case FirstRequest(path) => OnFirstRequest(c, path)
    case Poll(path) => c
    case Release(path, immediately, now) => OnRelease(c, path, immediately, now)
    case Complete(job, loaded) => OnComplete(c, job, loaded)
    case Cleanup(immediately, now) => OnCleanup(c, immediately, now)
  }

  function Run(events: seq<Event>): Cache {
    if events == [] then EMPTY else Step(Run(events[..|events| - 1]), events[|events| - 1])
  }

  /** By how much an event changes the number of users of a path. */
  function Delta(e: Event, path: string): int {
    if e == FirstRequest(path) then 1 else if e.Release? && e.path == path then -1 else 0
  }

  /** First requests minus releases of the path. */
  function Outstanding(events: seq<Event>, path: string): int {
    if events == [] then 0
    else
      var e := events[|events| - 1];
      Outstanding(events[..|events| - 1], path) + Delta(e, path)
  }

  /** No path is released more often than it was requested for the first time. */
  predicate Legal(events: seq<Event>) {
    events == [] ||
    (var before, e := events[..|events| - 1], events[|events| - 1];
     Legal(before) && (e.Release? ==> Outstanding(before, e.path) > 0))
  }

  /** Weights that count the images with a path, their users, and the images of a job. */
  function OnPath(path: string): Image -> nat { (m: Image) => if m.path == path then 1 else 0 }

  function UsersOn(path: string): Image -> nat { (m: Image) => if m.path == path then m.refs else 0 }

  function OfJob(id: nat): Image -> nat { (m: Image) => if m.id == id then 1 else 0 }

  function Total(c: Cache, weight: Image -> nat): nat {
    Sum(c.queued, weight) + Sum(c.held, weight)
  }

  /** Cleaning up splits the list into the images kept and those freed; nobody uses the latter. */
  lemma {:induction false} SumOfKept(images: seq<Image>, immediately: bool, now: nat, path: string, id: nat)
    ensures Sum(Kept(images, immediately, now), OnPath(path)) <= Sum(images, OnPath(path))
    ensures Sum(Kept(images, immediately, now), UsersOn(path)) == Sum(images, UsersOn(path))
    ensures Sum(Kept(images, immediately, now), OfJob(id)) + multiset(ExpiredIds(images, immediately, now))[id] ==
      Sum(images, OfJob(id))
  {
    if images != [] {
      var rest := images[1..];
      SumOfKept(rest, immediately, now, path, id);
      assert ([images[0]] + Kept(rest, immediately, now))[1..] == Kept(rest, immediately, now);
    }
  }

  /** The path is held by at most one image, in one of the lists. */
  predicate PathOnce(c: Cache, path: string) {
    Total(c, OnPath(path)) <= 1
  }

  /** The image of a job is queued, held or freed once it was made, in only one of these places, and only once. */
  predicate Conserved(c: Cache, id: nat) {
    Total(c, OfJob(id)) + multiset(c.freed)[id] == if id < c.nextJob then 1 else 0
  }

  /** A queued image is used and has no texture yet; its job has not completed, and no job completes twice. */
  predicate QueueWaits(c: Cache) {
    && (forall i :: 0 <= i < |c.queued| ==> c.queued[i].refs > 0 && c.queued[i].texture.None?)
    && (forall i :: 0 <= i < |c.queued| ==> c.queued[i].id !in c.completed)
    && (forall i, j :: 0 <= i < j < |c.completed| ==> c.completed[i] != c.completed[j])
    && (forall id :: id in c.completed ==> id < c.nextJob)
  }

  /** Users of the path in all. */
  function RefsOf(c: Cache, path: string): nat {
    Total(c, UsersOn(path))
  }

  /** An image is what its path counts when it is the only one on it. */
  lemma {:induction false} OnlyOne(c: Cache, path: string)
    requires PathOnce(c, path)
    ensures forall i :: 0 <= i < |c.held| && c.held[i].path == path ==>
      RefsOf(c, path) == c.held[i].refs && Find(c.held, path) == i && Find(c.queued, path) == |c.queued|
    ensures forall i :: 0 <= i < |c.queued| && c.queued[i].path == path ==>
      RefsOf(c, path) == c.queued[i].refs && Find(c.queued, path) == i && Find(c.held, path) == |c.held|
    ensures Find(c.held, path) == |c.held| && Find(c.queued, path) == |c.queued| ==>
      RefsOf(c, path) == 0 == Total(c, OnPath(path))
  {
    forall i | 0 <= i < |c.held| && c.held[i].path == path
      ensures RefsOf(c, path) == c.held[i].refs && Find(c.held, path) == i && Find(c.queued, path) == |c.queued|
    {
      OnlyOneIn(c.held, c.queued, i, path);
    }
    forall i | 0 <= i < |c.queued| && c.queued[i].path == path
      ensures RefsOf(c, path) == c.queued[i].refs && Find(c.queued, path) == i && Find(c.held, path) == |c.held|
    {
      OnlyOneIn(c.queued, c.held, i, path);
    }
    if Find(c.held, path) == |c.held| && Find(c.queued, path) == |c.queued| {
      SumOfAbsent(c.held, OnPath(path));
      SumOfAbsent(c.queued, OnPath(path));
      SumOfAbsent(c.held, UsersOn(path));
      SumOfAbsent(c.queued, UsersOn(path));
    }
  }

  lemma {:induction false} OnlyOneIn(images: seq<Image>, others: seq<Image>, i: nat, path: string)
    requires i < |images| && images[i].path == path && Sum(images, OnPath(path)) + Sum(others, OnPath(path)) <= 1
    ensures Sum(images, UsersOn(path)) == images[i].refs && Sum(others, UsersOn(path)) == 0
    ensures Find(images, path) == i && Find(others, path) == |others|
  {
    SumOfPresent(images, i, OnPath(path));
    forall k | 0 <= k < |others| ensures others[k].path != path {
      SumOfPresent(others, k, OnPath(path));
    }
    forall k | 0 <= k < |Erase(images, i)| ensures Erase(images, i)[k].path != path {
      assert Erase(images, i)[k] == images[if k < i then k else k + 1];
    }
    SumOfErase(images, i, UsersOn(path));
    SumOfAbsent(Erase(images, i), UsersOn(path));
    SumOfAbsent(others, UsersOn(path));
  }

  /** One user more leaves the images as they are. */
  lemma {:induction false} AddRefCounts(images: seq<Image>, i: nat, p: string, id: nat)
    requires i < |images|
    ensures Sum(AddRef(images, i), OnPath(p)) == Sum(images, OnPath(p))
    ensures Sum(AddRef(images, i), OfJob(id)) == Sum(images, OfJob(id))
    ensures Sum(AddRef(images, i), UsersOn(p)) == Sum(images, UsersOn(p)) + (if images[i].path == p then 1 else 0)
  {
    var m := images[i].(refs := images[i].refs + 1);
    SumOfUpdate(images, i, m, OnPath(p));
    SumOfUpdate(images, i, m, UsersOn(p));
    SumOfUpdate(images, i, m, OfJob(id));
  }

  lemma {:induction false} FirstRequestKeeps(c: Cache, path: string, p: string, id: nat)
    requires PathOnce(c, path) && PathOnce(c, p) && Conserved(c, id)
    ensures var d := OnFirstRequest(c, path);
            PathOnce(d, p) && Conserved(d, id) && RefsOf(d, p) == RefsOf(c, p) + Delta(FirstRequest(path), p)
  {
    var a, q := Find(c.held, path), Find(c.queued, path);
    OnlyOne(c, path);
    if a < |c.held| {
      AddRefCounts(c.held, a, p, id);
    } else if q < |c.queued| {
      AddRefCounts(c.queued, q, p, id);
    } else {
      var m := Image(c.nextJob, path, 1, None, 0);
      SumOfAppend(c.queued, m, OnPath(p));
      SumOfAppend(c.queued, m, UsersOn(p));
      SumOfAppend(c.queued, m, OfJob(id));
    }
  }

  /** What releasing does to the list that holds the image: one user less, and without any the image may go at once. */
  lemma {:induction false} ReleaseIn(images: seq<Image>, i: nat, image: Image, gone: bool, p: string, id: nat)
    requires i < |images| && images[i].refs > 0
    requires image == images[i].(refs := images[i].refs - 1, timeToDelete := image.timeToDelete)
    requires gone ==> images[i].refs == 1
    ensures var r := if gone then Erase(images, i) else images[i := image];
            && Sum(r, OnPath(p)) <= Sum(images, OnPath(p))
            && Sum(r, UsersOn(p)) == Sum(images, UsersOn(p)) - (if images[i].path == p then 1 else 0)
            && Sum(r, OfJob(id)) + (if gone && images[i].id == id then 1 else 0) == Sum(images, OfJob(id))
  {
    if gone {
      SumOfErase(images, i, OnPath(p));
      SumOfErase(images, i, UsersOn(p));
      SumOfErase(images, i, OfJob(id));
    } else {
      SumOfUpdate(images, i, image, OnPath(p));
      SumOfUpdate(images, i, image, UsersOn(p));
      SumOfUpdate(images, i, image, OfJob(id));
    }
  }

  /** From what a release does to the two lists to what it does to the counts. */
  lemma {:induction false} ReleaseCounts(c: Cache, d: Cache, freed: bool, m: Image, p: string, id: nat)
    requires PathOnce(c, p) && Conserved(c, id) && d.nextJob == c.nextJob
    requires d.freed == if freed then c.freed + [m.id] else c.freed
    requires Total(d, OnPath(p)) <= Total(c, OnPath(p))
    requires Total(d, UsersOn(p)) == Total(c, UsersOn(p)) - (if m.path == p then 1 else 0)
    requires Total(d, OfJob(id)) + (if freed && m.id == id then 1 else 0) == Total(c, OfJob(id))
    ensures PathOnce(d, p) && Conserved(d, id) && RefsOf(d, p) == RefsOf(c, p) - (if m.path == p then 1 else 0)
  {
  }

  lemma {:induction false} ReleaseHeldKeeps(c: Cache, path: string, immediately: bool, now: nat, p: string, id: nat)
    requires PathOnce(c, p) && Conserved(c, id)
    requires Find(c.held, path) < |c.held| && c.held[Find(c.held, path)].refs > 0
    ensures var d := OnRelease(c, path, immediately, now);
            PathOnce(d, p) && Conserved(d, id) && RefsOf(d, p) == RefsOf(c, p) - (if path == p then 1 else 0)
  {
    var d, a := OnRelease(c, path, immediately, now), Find(c.held, path);
    var m := c.held[a];
    var gone := m.refs == 1 && immediately;
    ReleaseIn(c.held, a, if gone then m.(refs := 0) else d.held[a], gone, p, id);
    ReleaseCounts(c, d, gone, m, p, id);
  }

  lemma {:induction false} ReleaseQueuedKeeps(c: Cache, path: string, immediately: bool, now: nat, p: string, id: nat)
    requires PathOnce(c, p) && Conserved(c, id)
    requires Find(c.held, path) == |c.held| && Find(c.queued, path) < |c.queued|
      && c.queued[Find(c.queued, path)].refs > 0
    ensures var d := OnRelease(c, path, immediately, now);
            PathOnce(d, p) && Conserved(d, id) && RefsOf(d, p) == RefsOf(c, p) - (if path == p then 1 else 0)
  {
    var d, q := OnRelease(c, path, immediately, now), Find(c.queued, path);
    var m := c.queued[q];
    ReleaseIn(c.queued, q, m.(refs := m.refs - 1), m.refs == 1, p, id);
    ReleaseCounts(c, d, m.refs == 1, m, p, id);
  }

  lemma {:induction false} ReleaseKeeps(c: Cache, path: string, immediately: bool, now: nat, p: string, id: nat)
    requires PathOnce(c, path) && PathOnce(c, p) && Conserved(c, id) && RefsOf(c, path) > 0
    ensures var d := OnRelease(c, path, immediately, now);
            && PathOnce(d, p) && Conserved(d, id)
            && RefsOf(d, p) == RefsOf(c, p) - (if path == p then 1 else 0)
  {
    OnlyOne(c, path);
    if Find(c.held, path) < |c.held| {
      ReleaseHeldKeeps(c, path, immediately, now, p, id);
    } else {
      ReleaseQueuedKeeps(c, path, immediately, now, p, id);
    }
  }

  lemma {:induction false} CompleteKeeps(c: Cache, job: nat, texture: Option<nat>, weight: Image -> nat)
    requires forall m: Image :: weight(m.(texture := texture)) == weight(m)
    ensures Total(OnComplete(c, job, texture), weight) == Total(c, weight)
  {
    var q := FindJob(c.queued, job);
    if q < |c.queued| && c.queued[q].texture.None? {
      SumOfErase(c.queued, q, weight);
      SumOfAppend(c.held, c.queued[q].(texture := texture), weight);
    }
  }

  lemma {:induction false} StepKeepsCounts(c: Cache, e: Event, p: string, id: nat)
    requires PathOnce(c, p) && Conserved(c, id)
    requires e.FirstRequest? || e.Release? ==> PathOnce(c, e.path)
    requires e.Release? ==> RefsOf(c, e.path) > 0
    ensures PathOnce(Step(c, e), p) && Conserved(Step(c, e), id) && RefsOf(Step(c, e), p) == RefsOf(c, p) + Delta(e, p)
  {
    match e
    case FirstRequest(path) => FirstRequestKeeps(c, path, p, id);
    case Poll(path) =>
    case Release(path, immediately, now) => ReleaseKeeps(c, path, immediately, now, p, id);
    case Complete(job, texture) =>
      CompleteKeeps(c, job, texture, OnPath(p));
      CompleteKeeps(c, job, texture, UsersOn(p));
      CompleteKeeps(c, job, texture, OfJob(id));
    case Cleanup(immediately, now) =>
      SumOfKept(c.held, immediately, now, p, id);
      assert multiset(c.freed + ExpiredIds(c.held, immediately, now))
          == multiset(c.freed) + multiset(ExpiredIds(c.held, immediately, now));
  }

  /** A queued job stands in the queue once, and was given out. */
  lemma {:induction false} QueuedOnce(c: Cache, q: nat)
    requires q < |c.queued| && Conserved(c, c.queued[q].id)
    ensures c.queued[q].id < c.nextJob && c.queued[q].id !in c.freed
    ensures forall i :: 0 <= i < |c.queued| && i != q ==> c.queued[i].id != c.queued[q].id
  {
    SumOfPresent(c.queued, q, OfJob(c.queued[q].id));
  }

  lemma {:induction false} CompleteKeepsWaiting(c: Cache, job: nat, texture: Option<nat>)
    requires QueueWaits(c) && !c.failed && Conserved(c, job)
    ensures QueueWaits(OnComplete(c, job, texture)) && !OnComplete(c, job, texture).failed
  {
    var q := FindJob(c.queued, job);
    if q < |c.queued| {
      QueuedOnce(c, q);
      var d := OnComplete(c, job, texture);
      forall i | 0 <= i < |d.queued|
        ensures d.queued[i].refs > 0 && d.queued[i].texture.None? && d.queued[i].id !in d.completed
      {
        assert d.queued[i] == c.queued[if i < q then i else i + 1];
      }
    }
  }

  lemma {:induction false} ReleaseKeepsWaiting(c: Cache, path: string, immediately: bool, now: nat)
    requires QueueWaits(c) && !c.failed && PathOnce(c, path) && RefsOf(c, path) > 0
    ensures QueueWaits(OnRelease(c, path, immediately, now)) && !OnRelease(c, path, immediately, now).failed
  {
    OnlyOne(c, path);
    var d, q := OnRelease(c, path, immediately, now), Find(c.queued, path);
    forall i | 0 <= i < |d.queued|
      ensures d.queued[i].refs > 0 && d.queued[i].texture.None? && d.queued[i].id !in d.completed
    {
      if |d.queued| < |c.queued| {
        assert d.queued[i] == c.queued[if i < q then i else i + 1];
      }
    }
  }

  lemma {:induction false} FirstRequestKeepsWaiting(c: Cache, path: string)
    requires QueueWaits(c)
    ensures QueueWaits(OnFirstRequest(c, path))
  {
  }

  /** What holds of a path, of a job and of the queue at every moment. */
  predicate Good(c: Cache, path: string, id: nat) {
    !c.failed && QueueWaits(c) && PathOnce(c, path) && Conserved(c, id)
  }

  lemma {:induction false} StepKeeps(c: Cache, e: Event, p: string, id: nat)
    requires Good(c, p, id)
    requires e.FirstRequest? || e.Release? ==> PathOnce(c, e.path)
    requires e.Release? ==> RefsOf(c, e.path) > 0
    requires e.Complete? ==> Conserved(c, e.job)
    ensures Good(Step(c, e), p, id) && RefsOf(Step(c, e), p) == RefsOf(c, p) + Delta(e, p)
  {
    StepKeepsCounts(c, e, p, id);
    match e
    case FirstRequest(path) => FirstRequestKeepsWaiting(c, path);
    case Poll(path) =>
    case Release(path, immediately, now) => ReleaseKeepsWaiting(c, path, immediately, now);
    case Complete(job, texture) => CompleteKeepsWaiting(c, job, texture);
    case Cleanup(immediately, now) =>
  }

  /** All of this, for every path and every job. */
  ghost predicate AllGood(c: Cache) {
    && !c.failed && QueueWaits(c)
    && (forall p: string :: PathOnce(c, p)) && (forall id: nat :: Conserved(c, id))
  }

  /** Every path has as many users as requests of it are outstanding. */
  ghost predicate AllCounted(c: Cache, events: seq<Event>) {
    forall p: string :: RefsOf(c, p) == Outstanding(events, p)
  }

  lemma {:induction false} StepKeepsAll(c: Cache, e: Event)
    requires AllGood(c) && (e.Release? ==> RefsOf(c, e.path) > 0)
    ensures AllGood(Step(c, e))
    ensures forall p: string :: RefsOf(Step(c, e), p) == RefsOf(c, p) + Delta(e, p)
  {
    var d := Step(c, e);
    StepKeeps(c, e, "", 0);
    forall p: string ensures PathOnce(d, p) && RefsOf(d, p) == RefsOf(c, p) + Delta(e, p) {
      StepKeeps(c, e, p, 0);
    }
    forall id: nat ensures Conserved(d, id) {
      StepKeeps(c, e, "", id);
    }
  }

  /** All of this, after these events. */
  ghost predicate AllKept(events: seq<Event>) {
    AllGood(Run(events)) && AllCounted(Run(events), events)
  }

  lemma {:induction false} NoneOnPath(p: string)
    ensures PathOnce(EMPTY, p)
  {
    NoneCounted(OnPath(p));
  }

  lemma {:induction false} NoUser(p: string)
    ensures RefsOf(EMPTY, p) == 0
  {
    NoneCounted(UsersOn(p));
  }

  lemma {:induction false} NoneOfJob(id: nat)
    ensures Conserved(EMPTY, id)
  {
    NoneCounted(OfJob(id));
  }

  lemma {:induction false} NoneCounted(weight: Image -> nat)
    ensures Total(EMPTY, weight) == 0
  {
  }

  lemma {:induction false} NoEvent()
    ensures AllKept([])
  {
    var c := EMPTY;
    assert Run([]) == c && QueueWaits(c) && !c.failed;
    forall p: string ensures PathOnce(c, p) && RefsOf(c, p) == Outstanding([], p) {
      NoneOnPath(p);
      NoUser(p);
    }
    forall id: nat ensures Conserved(c, id) {
      NoneOfJob(id);
    }
    assert AllGood(c) && AllCounted(c, []);
  }

  lemma {:induction false} OneMoreEvent(before: seq<Event>, e: Event)
    requires AllKept(before) && Legal(before + [e])
    ensures AllKept(before + [e])
  {
    RunExtends(before, e);
    StepKeepsAll(Run(before), e);
    CountedAfter(Run(before), Step(Run(before), e), e, before);
  }

  lemma {:induction false} RunExtends(before: seq<Event>, e: Event)
    ensures Run(before + [e]) == Step(Run(before), e)
    ensures Legal(before + [e]) <==> Legal(before) && (e.Release? ==> Outstanding(before, e.path) > 0)
    ensures forall p: string :: Outstanding(before + [e], p) == Outstanding(before, p) + Delta(e, p)
  {
    assert (before + [e])[..|before|] == before;
  }

  lemma {:induction false} CountedAfter(c: Cache, d: Cache, e: Event, before: seq<Event>)
    requires AllCounted(c, before) && forall p: string :: RefsOf(d, p) == RefsOf(c, p) + Delta(e, p)
    ensures AllCounted(d, before + [e])
  {
    RunExtends(before, e);
  }

  lemma {:induction false} ReachableAll(events: seq<Event>)
    requires Legal(events)
    ensures AllKept(events)
    decreases |events|
  {
    if events == [] {
      NoEvent();
    } else {
      var before, e := events[..|events| - 1], events[|events| - 1];
      ReachableAll(before);
      assert events == before + [e];
      OneMoreEvent(before, e);
    }
  }

  /**
    In every state reached by legal events no assertion has failed, a path has exactly
    the users that requested it and did not release it, at most one image has that
    path, and every image ever made is queued, in the list of loaded images, or freed, once.
   */
  lemma {:induction false} ReachableKeeps(events: seq<Event>, p: string, id: nat)
    requires Legal(events)
    ensures Good(Run(events), p, id) && RefsOf(Run(events), p) == Outstanding(events, p)
  {
    ReachableAll(events);
  }

  /** Some listed image has the path, and somebody uses it. */
  predicate Used(c: Cache, path: string) {
    || (exists i :: 0 <= i < |c.queued| && c.queued[i].path == path)
    || (exists i :: 0 <= i < |c.held| && c.held[i].path == path && c.held[i].refs > 0)
  }

  /** Every listed image of the path has n users, and there are not two of them. */
  predicate UsedExactly(c: Cache, path: string, n: int) {
    && (forall i :: 0 <= i < |c.queued| && c.queued[i].path == path ==> c.queued[i].refs == n)
    && (forall i :: 0 <= i < |c.held| && c.held[i].path == path ==> c.held[i].refs == n)
    && (forall i, j :: 0 <= i < |c.queued| && 0 <= j < |c.held| && c.queued[i].path == path ==> c.held[j].path != path)
  }

  lemma {:induction false} CountsInState(c: Cache, path: string)
    requires Good(c, path, 0)
    ensures UsedExactly(c, path, RefsOf(c, path)) && (Used(c, path) <==> RefsOf(c, path) > 0)
  {
    OnlyOne(c, path);
    var a, q := Find(c.held, path), Find(c.queued, path);
    assert a < |c.held| ==> c.held[a].path == path;
    assert q < |c.queued| ==> c.queued[q].path == path;
  }

  /** So the reference count of a listed image is its path's outstanding requests, and there is no second one. */
  lemma {:induction false} CountsAreExact(events: seq<Event>, path: string)
    requires Legal(events)
    ensures UsedExactly(Run(events), path, Outstanding(events, path))
    ensures Used(Run(events), path) <==> Outstanding(events, path) > 0
  {
    ReachableKeeps(events, path, 0);
    CountsInState(Run(events), path);
  }

  lemma {:induction false} OverReleaseInState(c: Cache, path: string, immediately: bool, now: nat)
    requires Good(c, path, 0) && RefsOf(c, path) == 0
    ensures OnRelease(c, path, immediately, now) == c.(failed := Find(c.held, path) < |c.held|)
  {
    OnlyOne(c, path);
  }

  /**
    One release too many fails the assertion exactly when the image still waits to be deleted;
    otherwise it does nothing.
   */
  lemma {:induction false} OverRelease(events: seq<Event>, path: string, immediately: bool, now: nat)
    requires Legal(events) && Outstanding(events, path) <= 0
    ensures OnRelease(Run(events), path, immediately, now)
         == Run(events).(failed := Find(Run(events).held, path) < |Run(events).held|)
  {
    var c := Run(events);
    assert Good(c, path, 0) && RefsOf(c, path) == 0 by {
      ReachableKeeps(events, path, 0);
    }
    OverReleaseInState(c, path, immediately, now);
  }

  lemma {:induction false} CompletionInState(c: Cache, job: nat, texture: Option<nat>)
    requires Good(c, "", job)
    ensures OnComplete(c, job, texture) != c <==> exists i :: 0 <= i < |c.queued| && c.queued[i].id == job
    ensures job in c.freed || job in c.completed || job >= c.nextJob ==> OnComplete(c, job, texture) == c
  {
    if q :| 0 <= q < |c.queued| && c.queued[q].id == job {
      QueuedOnce(c, q);
    }
  }

  /**
    A completion changes something exactly when its job still waits in the queue: not
    for a job that was cancelled, has completed before, or was never started, even
    when the same path is queued again.
   */
  lemma {:induction false} CompletionOnlyWhileQueued(events: seq<Event>, job: nat, texture: Option<nat>)
    requires Legal(events)
    ensures var c := Run(events);
            && (Step(c, Complete(job, texture)) != c <==> exists i :: 0 <= i < |c.queued| && c.queued[i].id == job)
            && (job in c.freed || job in c.completed || job >= c.nextJob ==> Step(c, Complete(job, texture)) == c)
  {
    ReachableKeeps(events, "", job);
    CompletionInState(Run(events), job, texture);
  }

  /**
    Cleaning up goes image by image: one goes exactly when nobody uses it and its time has
    passed, or at once; the rest keep their order.
   */
  lemma {:induction false} KeptInOrder(before: seq<Image>, m: Image, after: seq<Image>, immediately: bool, now: nat)
    ensures var gone := m.refs == 0 && (immediately || now > m.timeToDelete);
            && Kept(before + [m] + after, immediately, now) ==
               Kept(before, immediately, now) + (if gone then [] else [m]) + Kept(after, immediately, now)
            && ExpiredIds(before + [m] + after, immediately, now) ==
               ExpiredIds(before, immediately, now)
               + (if gone then [m.id] else []) + ExpiredIds(after, immediately, now)
  {
    KeptSplits(before, m, after, immediately, now);
    ExpiredSplits(before, m, after, immediately, now);
  }

  lemma {:induction false} KeptSplits(before: seq<Image>, m: Image, after: seq<Image>, immediately: bool, now: nat)
    ensures Kept(before + [m] + after, immediately, now) ==
            Kept(before, immediately, now)
            + (if Expired(m, immediately, now) then [] else [m]) + Kept(after, immediately, now)
    decreases |before|
  {
    var all := before + [m] + after;
    if before == [] {
      assert all[0] == m && all[1..] == after;
    } else {
      assert all[0] == before[0] && all[1..] == before[1..] + [m] + after;
      KeptSplits(before[1..], m, after, immediately, now);
    }
  }

  lemma {:induction false} ExpiredSplits(before: seq<Image>, m: Image, after: seq<Image>, immediately: bool, now: nat)
    ensures ExpiredIds(before + [m] + after, immediately, now) ==
            ExpiredIds(before, immediately, now)
            + (if Expired(m, immediately, now) then [m.id] else []) + ExpiredIds(after, immediately, now)
    decreases |before|
  {
    var all := before + [m] + after;
    if before == [] {
      assert all[0] == m && all[1..] == after;
    } else {
      assert all[0] == before[0] && all[1..] == before[1..] + [m] + after;
      ExpiredSplits(before[1..], m, after, immediately, now);
    }
  }

  lemma {:induction false} KeptHas(images: seq<Image>, m: Image, immediately: bool, now: nat)
    requires m in images && !(m.refs == 0 && (immediately || now > m.timeToDelete))
    ensures m in Kept(images, immediately, now)
  {
    var k :| 0 <= k < |images| && images[k] == m;
    KeptInOrder(images[..k], m, images[k + 1..], immediately, now);
    assert images == images[..k] + [m] + images[k + 1..];
  }

  /** The event does not ask for the image's path, nor clean up before its time has passed. */
  predicate LeavesAlone(e: Event, m: Image) {
    match e
    case FirstRequest(path) => path != m.path
    case Release(path, _, _) => path != m.path
    case Cleanup(immediately, now) => !immediately && now <= m.timeToDelete
    case _ => true
  }

  lemma {:induction false} WaitsOn(c: Cache, e: Event, m: Image)
    requires m in c.held && m.refs == 0 && LeavesAlone(e, m)
    ensures m in Step(c, e).held
  {
    var k :| 0 <= k < |c.held| && c.held[k] == m;
    match e
    case FirstRequest(path) =>
      if Find(c.held, path) < |c.held| {
        assert Step(c, e).held[k] == m;
      }
    case Release(path, immediately, now) => ReleaseLeaves(c, path, immediately, now, k);
    case Cleanup(immediately, now) => KeptHas(c.held, m, immediately, now);
    case _ =>
  }

  lemma {:induction false} ReleaseLeaves(c: Cache, path: string, immediately: bool, now: nat, k: nat)
    requires k < |c.held| && c.held[k].path != path
    ensures c.held[k] in OnRelease(c, path, immediately, now).held
  {
    var a, d := Find(c.held, path), OnRelease(c, path, immediately, now);
    if |d.held| == |c.held| {
      assert d.held[k] == c.held[k];
    } else {
      assert d.held[if k < a then k else k - 1] == c.held[k];
    }
  }

  lemma {:induction false} WaitsOnAndOn(events: seq<Event>, later: seq<Event>, m: Image)
    requires m in Run(events).held && m.refs == 0 && forall e :: e in later ==> LeavesAlone(e, m)
    ensures m in Run(events + later).held
    decreases |later|
  {
    if later == [] {
      assert events + later == events;
    } else {
      var most, last := later[..|later| - 1], later[|later| - 1];
      assert later == most + [last];
      WaitsOnAndOn(events, most, m);
      assert events + later == events + most + [last];
      RunExtends(events + most, last);
      WaitsOn(Run(events + most), last, m);
    }
  }

  /**
    The image as its last user leaves it at the given time: it may be deleted after two seconds
    of the 32 bit clock.
   */
  function Left(m: Image, now: nat): Image {
    m.(refs := 0, timeToDelete := (now + 2000) % 0x1_0000_0000)
  }

  /**
    An image that the last user releases stays until its time has passed, as long as
    nobody asks for it and nothing is cleaned up at once: with its texture, under its id.
   */
  lemma {:induction false} ReleasedImageWaits(events: seq<Event>, a: nat, now: nat, later: seq<Event>)
    requires a < |Run(events).held| && Run(events).held[a].refs == 1
    requires Find(Run(events).held, Run(events).held[a].path) == a
    requires forall e :: e in later ==> LeavesAlone(e, Left(Run(events).held[a], now))
    ensures var m := Run(events).held[a];
            Left(m, now) in Run(events + [Release(m.path, false, now)] + later).held
  {
    var m := Run(events).held[a];
    RunExtends(events, Release(m.path, false, now));
    assert Run(events + [Release(m.path, false, now)]).held[a] == Left(m, now);
    WaitsOnAndOn(events + [Release(m.path, false, now)], later, Left(m, now));
  }

  /** Then the first cleanup after its time, and only then, frees it. */
  lemma {:induction false} DueImageGoes(events: seq<Event>, m: Image, immediately: bool, now: nat)
    requires Legal(events) && m in Run(events).held && m.refs == 0
    ensures m !in Run(events + [Cleanup(immediately, now)]).held <==> immediately || now > m.timeToDelete
  {
    var c := Run(events);
    RunExtends(events, Cleanup(immediately, now));
    if immediately || now > m.timeToDelete {
      KeptLacks(c.held, m, immediately, now);
    } else {
      KeptHas(c.held, m, immediately, now);
    }
  }

  lemma {:induction false} KeptLacks(images: seq<Image>, m: Image, immediately: bool, now: nat)
    requires m.refs == 0 && (immediately || now > m.timeToDelete)
    ensures m !in Kept(images, immediately, now)
    decreases |images|
  {
    if images != [] {
      KeptLacks(images[1..], m, immediately, now);
    }
  }

  /** A completed image is found by its path with the texture its loader brought, and its users. */
  lemma {:induction false} CompletedImageIsFound(events: seq<Event>, q: nat, texture: Option<nat>)
    requires Legal(events) && q < |Run(events).queued|
    ensures var c := Run(events);
            var m := c.queued[q];
            var d := Step(c, Complete(m.id, texture));
            && d.held == c.held + [m.(texture := texture)] && Find(d.held, m.path) == |c.held|
            && Find(d.queued, m.path) == |d.queued| && m.refs == Outstanding(events, m.path)
  {
    var c := Run(events);
    var m := c.queued[q];
    assert Good(c, m.path, m.id) && RefsOf(c, m.path) == Outstanding(events, m.path) by {
      ReachableKeeps(events, m.path, m.id);
    }
    CompletedInState(c, q, texture);
  }

  lemma {:induction false} CompletedInState(c: Cache, q: nat, texture: Option<nat>)
    requires q < |c.queued| && Good(c, c.queued[q].path, c.queued[q].id)
    ensures var m := c.queued[q];
            var d := Step(c, Complete(m.id, texture));
            && d.held == c.held + [m.(texture := texture)] && Find(d.held, m.path) == |c.held|
            && Find(d.queued, m.path) == |d.queued| && m.refs == RefsOf(c, m.path)
  {
    var m := c.queued[q];
    QueuedOnce(c, q);
    OnlyOne(c, m.path);
    var d := Step(c, Complete(m.id, texture));
    assert FindJob(c.queued, m.id) == q && Find(c.queued, m.path) == q;
    assert d.held[|c.held|].path == m.path;
    forall k | 0 <= k < |d.queued| ensures d.queued[k].path != m.path {
      assert d.queued[k] == c.queued[if k < q then k else k + 1];
    }
  }
}
