/**
  The large texture manager with its objects and lists updated in place.  Every method
  does to the objects what the corresponding step does to their values.
 */
module LargeTextureManager {
  import opened Options
  import opened Counting
  import opened TextureCache

  class LargeTexture {
    const path: string
    ghost const id: nat
    var refCount: nat
    var texture: Option<nat>
    var timeToDelete: nat
    ghost var deleted: bool

    constructor (path: string, ghost id: nat)
      ensures this.path == path && this.id == id && !deleted
      ensures View() == Image(id, path, 1, None, 0)
    {
      this.path, this.id := path, id;
      refCount, texture, timeToDelete, deleted := 1, None, 0, false;
    }

    ghost function View(): Image
      reads this`refCount, this`texture, this`timeToDelete
    {
      Image(id, path, refCount, texture, timeToDelete)
    }

    method AddRef()
      modifies `refCount
      ensures View() == old(View()).(refs := old(refCount) + 1)
    {
      refCount := refCount + 1;
    }

    /** The destructor; what it asserts is its precondition, and it runs only once. */
    method Delete()
      requires refCount == 0 && !deleted
      modifies `deleted
      ensures deleted
    {
      deleted := true;
    }

    method DecrRef(deleteImmediately: bool, now: nat) returns (unused: bool)
      requires refCount > 0 && !deleted
      modifies `refCount, `timeToDelete, `deleted
      ensures unused == (old(refCount) == 1) && deleted == (unused && deleteImmediately)
      ensures View() == old(View()).(refs := old(refCount) - 1,
        timeToDelete := if unused && !deleteImmediately then (now + TIME_TO_DELETE) % WRAP else old(timeToDelete))
    {
      refCount := refCount - 1;
      if refCount == 0 {
        if deleteImmediately {
          Delete();
        } else {
          timeToDelete := (now + TIME_TO_DELETE) % WRAP;
        }
        return true;
      }
      return false;
    }

    method DeleteIfRequired(deleteImmediately: bool, now: nat) returns (gone: bool)
      requires !deleted
      modifies `deleted
      ensures gone == Expired(old(View()), deleteImmediately, now) && deleted == gone
    {
      if refCount == 0 && (deleteImmediately || timeToDelete < now) {
        Delete();
        return true;
      }
      return false;
    }

    method SetTexture(t: Option<nat>)
      requires texture.None?
      modifies `texture
      ensures View() == old(View()).(texture := t)
    {
      if t.Some? {
        texture := t;
      }
    }
  }

  ghost function Views(ts: seq<LargeTexture>): (images: seq<Image>)
    reads ts
    ensures |images| == |ts|
    ensures forall i :: 0 <= i < |ts| ==> images[i] == ts[i].View()
  {
    seq(|ts|, i requires 0 <= i < |ts| reads ts => ts[i].View())
  }

  /** None of the objects was deleted. */
  ghost predicate Alive(ts: seq<LargeTexture>)
    reads ts
  {
    forall t :: t in ts ==> !t.deleted
  }

  ghost predicate AliveBut(ts: seq<LargeTexture>, image: LargeTexture)
    reads ts
  {
    forall t :: t in ts && t != image ==> !t.deleted
  }

  /** All of the objects were deleted. */
  ghost predicate Dead(ts: seq<LargeTexture>)
    reads ts
  {
    forall t :: t in ts ==> t.deleted
  }

  ghost function Ids(ts: seq<LargeTexture>): (ids: seq<nat>)
    ensures |ids| == |ts|
  {
    seq(|ts|, i requires 0 <= i < |ts| => ts[i].id)
  }

  predicate Distinct(ts: seq<LargeTexture>) {
    forall i, j :: 0 <= i < j < |ts| ==> ts[i] != ts[j]
  }

  /** One object of a list gets another user; the other list is not concerned. */
  method AddRefAt(ts: seq<LargeTexture>, i: nat, ghost others: seq<LargeTexture>)
    requires i < |ts| && Distinct(ts) && ts[i] !in others
    modifies {ts[i]}`refCount
    ensures Views(ts) == AddRef(old(Views(ts)), i) && Views(others) == old(Views(others))
  {
    ghost var images, rest := Views(ts), Views(others);
    ts[i].AddRef();
    assert forall j :: 0 <= j < |others| ==> others[j] in others;
    assert Views(others) == rest;
    assert Views(ts) == AddRef(images, i);
  }

  method DecrRefAt(ts: seq<LargeTexture>, i: nat, deleteImmediately: bool, now: nat, ghost others: seq<LargeTexture>)
    returns (unused: bool)
    requires i < |ts| && Distinct(ts) && ts[i] !in others && ts[i].refCount > 0 && !ts[i].deleted
    modifies ts[i]
    ensures unused == (old(ts[i].refCount) == 1) && ts[i].deleted == (unused && deleteImmediately)
    ensures Views(ts) == old(Views(ts))[i := old(ts[i].View()).(refs := old(ts[i].refCount) - 1,
      timeToDelete := if unused && !deleteImmediately then (now + TIME_TO_DELETE) % WRAP else old(ts[i].timeToDelete))]
    ensures Views(others) == old(Views(others))
  {
    ghost var images, rest := Views(ts), Views(others);
    unused := ts[i].DecrRef(deleteImmediately, now);
    assert forall j :: 0 <= j < |others| ==> others[j] in others;
    assert Views(others) == rest;
    assert Views(ts) == images[i := ts[i].View()];
  }

  class Manager {
    /** The program's list of pairs of a job and its image, as two lists. */
    var jobs: seq<nat>
    var waiting: seq<LargeTexture>
    var held: seq<LargeTexture>
    /** The job manager numbers jobs in the order they are added. */
    var nextJob: nat
    ghost var dead: seq<LargeTexture>
    ghost var completed: seq<nat>
    /** All that were ever made. */
    ghost var objects: set<LargeTexture>

    /**
      All listed objects are different and none was deleted, as those taken out of the
      lists were; a queued one stands with its job's number.
     */
    ghost predicate Valid()
      reads this, held, waiting, dead
    {
      Listed() && Dead(dead) && Alive(held) && Alive(waiting)
    }

    /** The same when one of the objects was just deleted. */
    ghost predicate ValidBut(image: LargeTexture)
      reads this, held, waiting, dead, image
    {
      Listed() && Dead(dead) && image.deleted && AliveBut(held, image) && AliveBut(waiting, image)
    }

    ghost predicate Listed()
      reads this
    {
      && Distinct(held) && Distinct(waiting)
      && (forall t :: t in held ==> t !in waiting && t in objects)
      && (forall t :: t in waiting ==> t in objects)
      && |jobs| == |waiting| && (forall i :: 0 <= i < |jobs| ==> waiting[i].id == jobs[i])
    }

    ghost function Cached(): Cache
      reads this, held, waiting
    {
      Cache(Views(waiting), Views(held), nextJob, Ids(dead), completed, false)
    }

    constructor ()
      ensures Valid() && Cached() == EMPTY && objects == {}
    {
      jobs, waiting, held, nextJob := [], [], [], 0;
      dead, completed, objects := [], [], {};
    }

    /** The program's loop over the loaded images. */
    method FindHeld(path: string) returns (i: nat)
      ensures i == Find(Views(held), path)
    {
      i := 0;
      while i < |held| && held[i].path != path
        invariant i <= |held|
        invariant forall k :: 0 <= k < i ==> held[k].path != path
      {
        i := i + 1;
      }
      FindIs(Views(held), path, i);
    }

    method FindQueued(path: string) returns (i: nat)
      ensures i == Find(Views(waiting), path)
    {
      i := 0;
      while i < |waiting| && waiting[i].path != path
        invariant i <= |waiting|
        invariant forall k :: 0 <= k < i ==> waiting[k].path != path
      {
        i := i + 1;
      }
      FindIs(Views(waiting), path, i);
    }

    /** The texture of a loaded image, or nothing yet; false tells that loading failed. */
    method GetImage(path: string, firstRequest: bool) returns (ok: bool, texture: Option<nat>)
      requires Valid()
      modifies this, held, waiting
      ensures Valid() && fresh(objects - old(objects))
      ensures Cached() == if firstRequest then OnFirstRequest(old(Cached()), path) else old(Cached())
      ensures var images, a := old(Views(held)), Find(old(Views(held)), path);
              && texture == (if a < |images| then images[a].texture else None)
              && ok == (a < |images| ==> texture.Some?)
    {
      ok, texture := true, None;
      var a := FindHeld(path);
      if a < |held| {
        texture := held[a].texture;
        ok := texture.Some?;
        if firstRequest {
          AddRefAt(held, a, waiting);
        }
      } else if firstRequest {
        QueueImage(path);
      }
    }

    method QueueImage(path: string)
      requires Valid() && Find(Views(held), path) == |held|
      modifies this, waiting
      ensures Valid() && Cached() == OnFirstRequest(old(Cached()), path) && fresh(objects - old(objects))
    {
      var q := FindQueued(path);
      if q < |waiting| {
        AddRefQueued(q);
      } else {
        AddNew(path);
      }
    }

    method AddRefQueued(q: nat)
      requires Valid() && q < |waiting|
      modifies waiting
      ensures Valid() && Cached() == old(Cached()).(queued := AddRef(old(Cached()).queued, q))
    {
      AddRefAt(waiting, q, held);
    }

    method AddNew(path: string)
      requires Valid()
      modifies this
      ensures Valid() && dead == old(dead) && completed == old(completed) && nextJob == old(nextJob) + 1
      ensures fresh(objects - old(objects))
      ensures Views(held) == old(Views(held))
      ensures Views(waiting) == old(Views(waiting)) + [Image(old(nextJob), path, 1, None, 0)]
    {
      var image := new LargeTexture(path, nextJob);
      assert Valid() && image !in held && image !in waiting;
      Enqueue(image);
    }

    /** The new image stands last in the queue, with the number of its job. */
    method Enqueue(image: LargeTexture)
      requires Valid() && image !in held && image !in waiting && image.id == nextJob && !image.deleted
      modifies this
      ensures Valid() && objects == old(objects) + {image}
      ensures Views(held) == old(Views(held)) && dead == old(dead) && completed == old(completed)
      ensures Views(waiting) == old(Views(waiting)) + [image.View()] && nextJob == old(nextJob) + 1
    {
      ViewsAppended(waiting, image);
      jobs, waiting := jobs + [nextJob], waiting + [image];
      nextJob, objects := nextJob + 1, objects + {image};
    }

    /**
      One user less.  The image of a path nobody uses must not be released while it
      waits to be deleted: that is what the program asserts.
     */
    method ReleaseImage(path: string, immediately: bool, now: nat)
      requires Valid() && PathOnce(Cached(), path) && QueueWaits(Cached())
      requires forall i :: 0 <= i < |held| && held[i].path == path ==> held[i].refCount > 0
      modifies this, held, waiting
      ensures Valid() && Cached() == OnRelease(old(Cached()), path, immediately, now) && objects == old(objects)
    {
      var a := FindHeld(path);
      if a < |held| {
        ReleaseHeld(a, immediately, now);
        return;
      }
      ReleaseFromQueue(path, immediately, now);
    }

    /** The loop over the queue goes on after an image that keeps other users; no second one has the path. */
    method ReleaseFromQueue(path: string, immediately: bool, now: nat)
      requires Valid() && PathOnce(Cached(), path) && QueueWaits(Cached()) && Find(Views(held), path) == |held|
      modifies this, waiting
      ensures Valid() && Cached() == OnRelease(old(Cached()), path, immediately, now) && objects == old(objects)
    {
      ghost var c := Cached();
      QueueRelease(c, path, immediately, now);
      var q := 0;
      while q < |waiting|
        invariant q <= |waiting| == |c.queued| && Valid() && waiting == old(waiting) && held == old(held)
        invariant objects == old(objects)
        invariant Cached() == Seen(c, q, path, immediately, now)
      {
        ghost var seen := Cached();
        assert seen.queued[q] == waiting[q].View();
        RoundIs(c, q, path, immediately, now);
        var gone := ReleaseIfOn(q, path, now);
        if gone {
          return;
        }
        q := q + 1;
      }
    }

    /** One round of that loop. */
    method ReleaseIfOn(q: nat, path: string, now: nat) returns (gone: bool)
      requires Valid() && q < |waiting| && (waiting[q].path == path ==> waiting[q].refCount > 0)
      modifies this, waiting
      ensures Valid() && held == old(held) && objects == old(objects) && gone == Leaves(old(Cached()), q, path)
      ensures !gone ==> waiting == old(waiting)
      ensures Cached() == Round(old(Cached()), q, path)
    {
      gone := false;
      assert Cached().queued[q] == waiting[q].View();
      if waiting[q].path == path {
        gone := ReleaseQueued(q, now);
      }
    }

    method ReleaseHeld(a: nat, immediately: bool, now: nat)
      requires Valid() && a < |held| && held[a].refCount > 0 && Find(Views(held), held[a].path) == a
      modifies this, held
      ensures Valid() && Cached() == OnRelease(old(Cached()), old(held[a].path), immediately, now)
      ensures objects == old(objects)
    {
      var unused := DecrRefAt(held, a, immediately, now, waiting);
      if unused && immediately {
        BuryHeld(a);
      }
    }

    /** Takes an image that was just deleted out of the loaded ones. */
    method BuryHeld(a: nat)
      requires a < |held| && ValidBut(held[a])
      modifies this
      ensures Valid() && waiting == old(waiting) && jobs == old(jobs) && objects == old(objects)
      ensures Cached() == var c := old(Cached()); c.(held := Erase(c.held, a), freed := c.freed + [c.held[a].id])
      ensures forall t :: t in held ==> t in old(held)
    {
      ghost var image := held[a];
      ErasedObjects(held, a);
      EraseHeld(a);
      IdsAppended(dead, image);
      dead := dead + [image];
    }

    /** Takes an image out of the loaded ones. */
    method EraseHeld(a: nat)
      requires a < |held|
      modifies `held
      ensures held == Erase(old(held), a) && Views(held) == Erase(old(Views(held)), a)
    {
      ViewsErased(held, a);
      held := held[..a] + held[a + 1..];
    }

    /** A queued image loses a user; without any left its job is cancelled and it goes. */
    method ReleaseQueued(q: nat, now: nat) returns (gone: bool)
      requires Valid() && q < |waiting| && waiting[q].refCount > 0
      modifies this, waiting
      ensures Valid() && held == old(held) && objects == old(objects) && gone == (old(waiting[q].refCount) == 1)
      ensures !gone ==> waiting == old(waiting) && jobs == old(jobs)
      ensures Cached() == var c, m := old(Cached()), old(waiting[q].View());
        if gone then c.(queued := Erase(c.queued, q), freed := c.freed + [m.id])
        else c.(queued := c.queued[q := m.(refs := m.refs - 1)])
    {
      gone := DecrRefAt(waiting, q, true, now, held);
      if gone {
        BuryQueued(q);
      }
    }

    /** Takes an image that was just deleted, and its job, out of the queue. */
    method BuryQueued(q: nat)
      requires q < |waiting| && ValidBut(waiting[q])
      modifies this
      ensures Valid() && held == old(held) && objects == old(objects)
      ensures Cached() == var c := old(Cached()); c.(queued := Erase(c.queued, q), freed := c.freed + [c.queued[q].id])
    {
      ghost var image := waiting[q];
      ErasedObjects(waiting, q);
      EraseQueued(q);
      IdsAppended(dead, image);
      dead := dead + [image];
    }

    method EraseQueued(q: nat)
      requires q < |waiting| == |jobs| && Distinct(waiting)
      modifies `waiting, `jobs
      ensures waiting == Erase(old(waiting), q) && jobs == Erase(old(jobs), q)
      ensures Views(waiting) == Erase(old(Views(waiting)), q)
    {
      ViewsErased(waiting, q);
      jobs := jobs[..q] + jobs[q + 1..];
      waiting := waiting[..q] + waiting[q + 1..];
    }

    /** Which place in the queue the job has. */
    method FindQueuedJob(job: nat) returns (q: nat)
      requires Valid()
      ensures q == FindJob(Views(waiting), job)
    {
      q := 0;
      while q < |waiting| && jobs[q] != job
        invariant q <= |waiting|
        invariant forall k :: 0 <= k < q ==> jobs[k] != job
      {
        q := q + 1;
      }
      FindJobIs(Views(waiting), job, q);
    }

    /** Completed jobs hand over their textures; the job manager may also report a job that was cancelled. */
    method OnJobComplete(job: nat, texture: Option<nat>)
      requires Valid() && QueueWaits(Cached())
      modifies this, waiting
      ensures Valid() && Cached() == OnComplete(old(Cached()), job, texture) && objects == old(objects)
    {
      var q := FindQueuedJob(job);
      if q < |waiting| {
        assert Cached().queued[q] == waiting[q].View();
        HandOver(q, texture);
      }
    }

    method HandOver(q: nat, texture: Option<nat>)
      requires Valid() && q < |waiting| && waiting[q].texture.None?
      modifies this, waiting
      ensures Valid() && objects == old(objects)
      ensures Cached() == var c := old(Cached());
        c.(queued := Erase(c.queued, q), held := c.held + [c.queued[q].(texture := texture)],
           completed := c.completed + [c.queued[q].id])
    {
      SetTextureAt(waiting, q, texture, held);
      MoveToHeld(q);
    }

    /** The image leaves the queue and becomes the last loaded one. */
    method MoveToHeld(q: nat)
      requires Valid() && q < |waiting|
      modifies this
      ensures Valid() && objects == old(objects)
      ensures Cached() == var c := old(Cached());
        c.(queued := Erase(c.queued, q), held := c.held + [c.queued[q]], completed := c.completed + [c.queued[q].id])
    {
      var image := waiting[q];
      assert Cached().queued[q] == image.View();
      Dequeue(q);
      AppendHeld(image);
      completed := completed + [image.id];
    }

    method Dequeue(q: nat)
      requires Valid() && q < |waiting|
      modifies `waiting, `jobs
      ensures Valid() && old(waiting[q]) !in waiting
      ensures Cached() == old(Cached()).(queued := Erase(old(Cached()).queued, q))
    {
      ErasedObjects(waiting, q);
      EraseQueued(q);
    }

    method AppendHeld(image: LargeTexture)
      requires Valid() && image !in held && image !in waiting && image in objects && !image.deleted
      modifies `held
      ensures Valid() && Cached() == old(Cached()).(held := old(Cached()).held + [image.View()])
    {
      AppendedObjects(held, image);
      ViewsAppended(held, image);
      held := held + [image];
    }

    /** What other threads and the windows ask for, in any state that legal events lead to. */
    method Handle(e: Event)
      requires Valid() && AllGood(Cached()) && (e.Release? ==> RefsOf(Cached(), e.path) > 0)
      modifies this, objects
      ensures Valid() && Cached() == Step(old(Cached()), e) && fresh(objects - old(objects))
    {
      ghost var c := Cached();
      assert forall k :: 0 <= k < |held| ==> held[k] in held;
      assert forall k :: 0 <= k < |waiting| ==> waiting[k] in waiting;
      match e {
        case FirstRequest(path) => var _, _ := GetImage(path, true);
        case Poll(path) => var _, _ := GetImage(path, false);
        case Release(path, immediately, now) =>
          CountsInState(c, path);
          assert forall i :: 0 <= i < |held| ==> held[i].View() == c.held[i];
          ReleaseImage(path, immediately, now);
        case Complete(job, texture) => OnJobComplete(job, texture);
        case Cleanup(immediately, now) => CleanupUnusedImages(immediately, now);
      }
    }

    /** A whole run: no assertion fails in any of the methods. */
    method Serve(events: seq<Event>)
      requires Valid() && Cached() == EMPTY && objects == {} && Legal(events)
      modifies this
      ensures Valid() && Cached() == Run(events)
    {
      for i := 0 to |events|
        invariant Valid() && Cached() == Run(events[..i]) && fresh(objects)
      {
        LegalNext(events, i);
        Handle(events[i]);
      }
      assert events[..|events|] == events;
    }

    /** Deletes the images that nobody uses and whose time has come. */
    method CleanupUnusedImages(immediately: bool, now: nat)
      requires Valid()
      modifies this, held
      ensures Valid() && Cached() == OnCleanup(old(Cached()), immediately, now) && objects == old(objects)
    {
      var i := 0;
      ghost var c := Cached();
      ghost var after := OnCleanup(c, immediately, now);
      RemainingEnds(c, immediately, now);
      while i < |held|
        invariant i <= |held| && Valid() && waiting == old(waiting) && jobs == old(jobs) && objects == old(objects)
        invariant forall t :: t in held ==> t in old(held)
        invariant |c.held| == |held| && after == Remaining(c, i, immediately, now) && Cached() == c
        decreases |held| - i
      {
        RemainingStep(c, i, immediately, now);
        assert held[i] in held && held[i] in old(held);
        var gone := CleanupAt(i, immediately, now);
        c := CleanedAt(c, i, immediately, now);
        if !gone {
          i := i + 1;
        }
      }
      RemainingEnds(c, immediately, now);
    }

    method CleanupAt(i: nat, immediately: bool, now: nat) returns (gone: bool)
      requires Valid() && i < |held|
      modifies this, held[i]
      ensures Valid() && gone == Expired(old(Cached()).held[i], immediately, now)
      ensures Cached() == CleanedAt(old(Cached()), i, immediately, now)
      ensures waiting == old(waiting) && jobs == old(jobs) && objects == old(objects)
      ensures forall t :: t in held ==> t in old(held)
    {
      assert Cached().held[i] == held[i].View();
      gone := held[i].DeleteIfRequired(immediately, now);
      if gone {
        BuryHeld(i);
      }
    }
  }

  /** What a legal run is handled with next. */
  lemma {:induction false} LegalNext(events: seq<Event>, i: nat)
    requires Legal(events) && i < |events|
    ensures AllGood(Run(events[..i])) && Run(events[..i + 1]) == Step(Run(events[..i]), events[i])
    ensures events[i].Release? ==> RefsOf(Run(events[..i]), events[i].path) > 0
  {
    var before, e := events[..i], events[i];
    LegalPrefix(events, i + 1);
    assert events[..i + 1] == before + [e];
    RunExtends(before, e);
    ReachableAll(before);
  }

  lemma {:induction false} LegalPrefix(events: seq<Event>, n: nat)
    requires Legal(events) && n <= |events|
    ensures Legal(events[..n])
    decreases |events|
  {
    if n < |events| {
      var init := events[..|events| - 1];
      assert init[..n] == events[..n];
      LegalPrefix(init, n);
    } else {
      assert events[..n] == events;
    }
  }

  method SetTextureAt(ts: seq<LargeTexture>, i: nat, texture: Option<nat>, ghost others: seq<LargeTexture>)
    requires i < |ts| && Distinct(ts) && ts[i] !in others && ts[i].texture.None?
    modifies {ts[i]}`texture
    ensures Views(ts) == old(Views(ts))[i := old(ts[i].View()).(texture := texture)]
      && Views(others) == old(Views(others))
  {
    ghost var images, rest := Views(ts), Views(others);
    ts[i].SetTexture(texture);
    assert forall j :: 0 <= j < |others| ==> others[j] in others;
    assert Views(others) == rest;
    assert Views(ts) == images[i := ts[i].View()];
  }

  /** What a release does to the queue when the image is not loaded. */
  lemma {:induction false} QueueRelease(c: Cache, path: string, immediately: bool, now: nat)
    requires PathOnce(c, path) && QueueWaits(c) && Find(c.held, path) == |c.held|
    ensures forall k :: 0 <= k < |c.queued| ==> (c.queued[k].path == path <==> k == Find(c.queued, path))
    ensures var q, after := Find(c.queued, path), OnRelease(c, path, immediately, now);
            if q == |c.queued| then after == c
            else
              var m := c.queued[q];
              && m.refs > 0
              && after == if m.refs == 1 then c.(queued := Erase(c.queued, q), freed := c.freed + [m.id])
                          else c.(queued := c.queued[q := m.(refs := m.refs - 1)])
  {
    OnlyOne(c, path);
  }

  /** The last user of the q-th queued image goes. */
  predicate Leaves(c: Cache, q: nat, path: string)
    requires q < |c.queued|
  {
    c.queued[q].path == path && c.queued[q].refs == 1
  }

  /** What one round of the loop over the queue does. */
  function Round(c: Cache, q: nat, path: string): Cache
    requires q < |c.queued| && (c.queued[q].path == path ==> c.queued[q].refs > 0)
  {
    var m := c.queued[q];
    if m.path != path then c
    else if m.refs == 1 then c.(queued := Erase(c.queued, q), freed := c.freed + [m.id])
    else c.(queued := c.queued[q := m.(refs := m.refs - 1)])
  }

  /** The state before round q, when the release began with c. */
  function Seen(c: Cache, q: nat, path: string, immediately: bool, now: nat): Cache {
    if q <= Find(c.queued, path) then c else OnRelease(c, path, immediately, now)
  }

  lemma {:induction false} RoundIs(c: Cache, q: nat, path: string, immediately: bool, now: nat)
    requires PathOnce(c, path) && QueueWaits(c) && Find(c.held, path) == |c.held| && q < |c.queued|
    requires |Seen(c, q, path, immediately, now).queued| == |c.queued|
    ensures var seen, after := Seen(c, q, path, immediately, now), OnRelease(c, path, immediately, now);
            && (seen.queued[q].path == path ==> seen.queued[q].refs > 0)
            && (if Leaves(seen, q, path) then Round(seen, q, path) == after
                else Round(seen, q, path) == Seen(c, q + 1, path, immediately, now))
  {
    QueueRelease(c, path, immediately, now);
  }

  /** What is left to do when the first i loaded images are known to stay. */
  function Remaining(c: Cache, i: nat, immediately: bool, now: nat): Cache
    requires i <= |c.held|
  {
    c.(held := c.held[..i] + Kept(c.held[i..], immediately, now),
       freed := c.freed + ExpiredIds(c.held[i..], immediately, now))
  }

  /** What one round of the cleanup does. */
  function CleanedAt(c: Cache, i: nat, immediately: bool, now: nat): Cache
    requires i < |c.held|
  {
    if Expired(c.held[i], immediately, now) then c.(held := Erase(c.held, i), freed := c.freed + [c.held[i].id]) else c
  }

  lemma {:induction false} RemainingStep(c: Cache, i: nat, immediately: bool, now: nat)
    requires i < |c.held|
    ensures Remaining(c, i, immediately, now) ==
      var next := if Expired(c.held[i], immediately, now) then i else i + 1;
      Remaining(CleanedAt(c, i, immediately, now), next, immediately, now)
  {
    assert c.held[i..][1..] == c.held[i + 1..];
    if Expired(c.held[i], immediately, now) {
      assert Erase(c.held, i)[..i] == c.held[..i] && Erase(c.held, i)[i..] == c.held[i + 1..];
      assert c.freed + ([c.held[i].id] + ExpiredIds(c.held[i + 1..], immediately, now))
          == (c.freed + [c.held[i].id]) + ExpiredIds(c.held[i + 1..], immediately, now);
    } else {
      assert c.held[..i] + ([c.held[i]] + Kept(c.held[i + 1..], immediately, now))
          == c.held[..i + 1] + Kept(c.held[i + 1..], immediately, now);
    }
  }

  lemma {:induction false} RemainingEnds(c: Cache, immediately: bool, now: nat)
    ensures Remaining(c, 0, immediately, now) == OnCleanup(c, immediately, now)
    ensures Remaining(c, |c.held|, immediately, now) == c
  {
    assert c.held[0..] == c.held && c.held[..0] == [] && c.held[|c.held|..] == [] && c.held[..|c.held|] == c.held;
  }

  lemma {:induction false} FindJobIs(images: seq<Image>, job: nat, i: nat)
    requires i <= |images| && (i < |images| ==> images[i].id == job)
    requires forall k :: 0 <= k < i ==> images[k].id != job
    ensures i == FindJob(images, job)
  {
  }

  lemma {:induction false} FindIs(images: seq<Image>, path: string, i: nat)
    requires i <= |images| && (i < |images| ==> images[i].path == path)
    requires forall k :: 0 <= k < i ==> images[k].path != path
    ensures i == Find(images, path)
  {
  }

  lemma {:induction false} ViewsErased(ts: seq<LargeTexture>, i: nat)
    requires i < |ts|
    ensures Views(Erase(ts, i)) == Erase(Views(ts), i)
  {
    assert forall k :: 0 <= k < |ts| - 1 ==> Erase(ts, i)[k] == ts[if k < i then k else k + 1];
  }

  /** What is left after an object is taken out of a list. */
  lemma {:induction false} ErasedObjects(ts: seq<LargeTexture>, i: nat)
    requires i < |ts| && Distinct(ts)
    ensures Distinct(Erase(ts, i))
    ensures forall t :: t in Erase(ts, i) <==> t in ts && t != ts[i]
  {
    assert forall k :: 0 <= k < |Erase(ts, i)| ==> Erase(ts, i)[k] == ts[if k < i then k else k + 1];
    forall t | t in ts && t != ts[i] ensures t in Erase(ts, i) {
      var k :| 0 <= k < |ts| && ts[k] == t;
      assert Erase(ts, i)[if k < i then k else k - 1] == t;
    }
  }

  lemma {:induction false} AppendedObjects(ts: seq<LargeTexture>, t: LargeTexture)
    requires Distinct(ts) && t !in ts
    ensures Distinct(ts + [t]) && forall u :: u in ts + [t] <==> u in ts || u == t
  {
  }

  lemma {:induction false} IdsAppended(ts: seq<LargeTexture>, t: LargeTexture)
    ensures Ids(ts + [t]) == Ids(ts) + [t.id]
  {
  }

  lemma {:induction false} ViewsAppended(ts: seq<LargeTexture>, t: LargeTexture)
    ensures Views(ts + [t]) == Views(ts) + [t.View()]
  {
  }
}
