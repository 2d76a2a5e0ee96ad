/** Which size the cut-over registers for each image: the volume is found again by a substring search. */
module Volumes {
  import opened Clusters
  import opened Text
  import opened Protocol
  import opened Traces
  import opened Discipline
  import opened Engines
  import opened Wrappers

  lemma OwnIdFound(id: string)
    ensures Contains(ImageOf(id), id)
  {
    assert ImageOf(id)[7..7 + |id|] == id;
    assert OccursAt(id, ImageOf(id), 7);
  }

  /** The search answers with the first volume whose id occurs in the image name. */
  lemma {:induction false} MatchIsFirst(volumes: seq<string>, image: string, i: nat)
    requires i < |volumes| && Contains(image, volumes[i])
    requires forall k | 0 <= k < i :: !Contains(image, volumes[k])
    ensures MatchVolume(volumes, image) == Some(volumes[i])
    decreases |volumes|
  {
    if i > 0 {
      assert !Contains(image, volumes[0]);
      assert volumes[1..][i - 1] == volumes[i];
      MatchIsFirst(volumes[1..], image, i - 1);
    }
  }

  lemma FirstMatch(volumes: seq<string>, image: string, i: nat) returns (m: nat)
    requires i < |volumes| && Contains(image, volumes[i])
    ensures m <= i && Contains(image, volumes[m]) && forall k | 0 <= k < m :: !Contains(image, volumes[k])
  {
    m := 0;
    while !Contains(image, volumes[m])
      invariant m <= i && forall k | 0 <= k < m :: !Contains(image, volumes[k])
      decreases i - m
    {
      m := m + 1;
    }
  }

  /** An image is matched with its own volume exactly when no earlier volume's id occurs in its name. */
  lemma OwnVolumeIff(volumes: seq<string>, i: nat)
    requires i < |volumes|
    ensures MatchVolume(volumes, ImageOf(volumes[i])) == Some(volumes[i])
        <==> forall k | 0 <= k < i && Contains(ImageOf(volumes[i]), volumes[k]) ::
               (exists h | 0 <= h <= k :: volumes[h] == volumes[i])
  {
    OwnIdFound(volumes[i]);
    FirstMatchIff(volumes, ImageOf(volumes[i]), i);
  }

  lemma FirstMatchIff(volumes: seq<string>, image: string, i: nat)
    requires i < |volumes| && Contains(image, volumes[i])
    ensures MatchVolume(volumes, image) == Some(volumes[i])
        <==> forall k | 0 <= k < i && Contains(image, volumes[k]) ::
               (exists h | 0 <= h <= k :: volumes[h] == volumes[i])
  {
    var m := FirstMatch(volumes, image, i);
    MatchIsFirst(volumes, image, m);
    if volumes[m] == volumes[i] {
      forall k | 0 <= k < i && Contains(image, volumes[k])
        ensures exists h | 0 <= h <= k :: volumes[h] == volumes[i]
      {
        assert m <= k;
      }
    } else {
      assert m < i;
    }
  }

  /** Short ids do collide: this image gets the size of another volume. */
  lemma ShortIdsCollide()
    ensures MatchVolume(["1", "11"], ImageOf("11")) == Some("1")
  {
    assert ImageOf("11")[7..8] == "1";
    assert OccursAt("1", ImageOf("11"), 7);
    MatchIsFirst(["1", "11"], ImageOf("11"), 0);
  }

  lemma UuidMatchesOwn(volumes: seq<string>, i: nat)
    requires i < |volumes| && forall v | v in volumes :: Uuid(v)
    ensures MatchVolume(volumes, ImageOf(volumes[i])) == Some(volumes[i])
  {
    forall k | 0 <= k < i && Contains(ImageOf(volumes[i]), volumes[k])
      ensures exists h | 0 <= h <= k :: volumes[h] == volumes[i]
    {
      UuidSearchIsExact(volumes[i], volumes[k]);
    }
    OwnVolumeIff(volumes, i);
  }

  /** What the cut-over registers when its first lookup happens at tick `from`: two calls per image. */
  function Registered(e: Env, volumes: seq<string>, from: nat): seq<Volume> {
    seq(|volumes|, i requires 0 <= i < |volumes| =>
      Volume(ImageOf(volumes[i]), if e.raises(from + 2 * i) then 10 else e.sizeGb(volumes[i])))
  }

  /**
   On a context without preset images and with UUID volume ids, a completed cut-over registers each
   volume's image once and in order, with that volume's own size, or 10 where that very lookup raised.
   */
  lemma CutoverRegisters(e: Env, s: State)
    requires forall v | v in e.vm.volumeIds :: Uuid(v)
    requires Exec(e, Copies(ImagesOf(e.vm.volumeIds)), s).Ran?
    ensures var r := Exec(e, Copies(ImagesOf(e.vm.volumeIds)), s).s;
      r.w.volumes == s.w.volumes + Registered(e, e.vm.volumeIds, |s.w.trace|) &&
      |r.w.trace| == |s.w.trace| + 2 * |e.vm.volumeIds|
  {
    var n := |e.vm.volumeIds|;
    assert Copies(ImagesOf(e.vm.volumeIds))[..n] == Copies(ImagesOf(e.vm.volumeIds));
    CopiesPrefix(e, s, n);
    assert Registered(e, e.vm.volumeIds, |s.w.trace|)[..n] == Registered(e, e.vm.volumeIds, |s.w.trace|);
  }

  lemma CopyOne(e: Env, s: State, i: nat)
    requires i < |e.vm.volumeIds| && forall v | v in e.vm.volumeIds :: Uuid(v)
    requires Step(e, Copy(ImageOf(e.vm.volumeIds[i])), s).Ran?
    ensures var w := Step(e, Copy(ImageOf(e.vm.volumeIds[i])), s).s.w;
      var size := if e.raises(|s.w.trace|) then 10 else e.sizeGb(e.vm.volumeIds[i]);
      w.volumes == s.w.volumes + [Volume(ImageOf(e.vm.volumeIds[i]), size)] && |w.trace| == |s.w.trace| + 2
  {
    UuidMatchesOwn(e.vm.volumeIds, i);
  }

  lemma {:induction false} MatchNone(volumes: seq<string>, image: string)
    requires forall v | v in volumes :: !Contains(image, v)
    ensures MatchVolume(volumes, image) == None
    decreases |volumes|
  {
    if volumes != [] {
      assert volumes[0] in volumes;
      assert forall v | v in volumes[1..] :: v in volumes;
      MatchNone(volumes[1..], image);
    }
  }

  /**
   What copying any image calls, whatever the ids: the lookup of the first volume whose id occurs in its name, then the
   registration with the size found, or with 10 if the lookup raised; with 10 at once if no id occurs.
   */
  lemma CopyCalls(e: Env, s: State, image: string)
    ensures var ids := e.vm.volumeIds;
      var calls := New(s.w, Step(e, Copy(image), s).s.w);
      ((forall v | v in ids :: !Contains(image, v)) ==>
        |calls| == 1 && calls[0].verb == CreateVolume(10) && calls[0].arg == image) &&
      (forall i | 0 <= i < |ids| && Contains(image, ids[i]) && forall k | 0 <= k < i :: !Contains(image, ids[k]) ::
        |calls| == 2 && calls[0].verb == GetVolume && calls[0].arg == ids[i] && calls[1].arg == image &&
        calls[1].verb == CreateVolume(if e.raises(|s.w.trace|) then 10 else e.sizeGb(ids[i])))
  {
    var ids := e.vm.volumeIds;
    if forall v | v in ids :: !Contains(image, v) {
      MatchNone(ids, image);
    }
    hide MatchVolume, Contains;
    forall i | 0 <= i < |ids| && Contains(image, ids[i]) && forall k | 0 <= k < i :: !Contains(image, ids[k])
      ensures MatchVolume(ids, image) == Some(ids[i])
    {
      MatchIsFirst(ids, image, i);
    }
    CopyOf(e, s, image);
    hide Step, New;
  }

  lemma CopyOf(e: Env, s: State, image: string)
    ensures var calls := New(s.w, Step(e, Copy(image), s).s.w);
      match MatchVolume(e.vm.volumeIds, image)
      case None => |calls| == 1 && calls[0].verb == CreateVolume(10) && calls[0].arg == image
      case Some(id) =>
        |calls| == 2 && calls[0].verb == GetVolume && calls[0].arg == id && calls[1].arg == image &&
        calls[1].verb == CreateVolume(if e.raises(|s.w.trace|) then 10 else e.sizeGb(id))
  {
    hide MatchVolume;
  }

  lemma RegisteredAt(e: Env, volumes: seq<string>, from: nat, i: nat)
    requires i < |volumes|
    ensures |Registered(e, volumes, from)| == |volumes|
    ensures Registered(e, volumes, from)[i] ==
            Volume(ImageOf(volumes[i]), if e.raises(from + 2 * i) then 10 else e.sizeGb(volumes[i]))
  {
  }

  lemma CopiesAt(images: seq<string>, i: nat)
    requires i < |images|
    ensures |Copies(images)| == |images| && Copies(images)[i] == Copy(images[i])
  {
  }

  /** The first `k` volumes are registered, by two calls each. */
  predicate RegisteredUpTo(e: Env, w0: World, k: nat, w: World)
    requires k <= |e.vm.volumeIds|
  {
    w.volumes == w0.volumes + Registered(e, e.vm.volumeIds, |w0.trace|)[..k] && |w.trace| == |w0.trace| + 2 * k
  }

  lemma RegistersNext(e: Env, w0: World, i: nat, s: State)
    requires i < |e.vm.volumeIds| && (forall v | v in e.vm.volumeIds :: Uuid(v)) && RegisteredUpTo(e, w0, i, s.w)
    requires Step(e, Copy(ImageOf(e.vm.volumeIds[i])), s).Ran?
    ensures RegisteredUpTo(e, w0, i + 1, Step(e, Copy(ImageOf(e.vm.volumeIds[i])), s).s.w)
  {
    RegisteredAt(e, e.vm.volumeIds, |w0.trace|, i);
    CopyOne(e, s, i);
    hide Step, Registered, Uuid;
    SnocPrefix(w0.volumes, Registered(e, e.vm.volumeIds, |w0.trace|), i + 1);
  }

  lemma {:induction false} CopiesPrefix(e: Env, s: State, k: nat)
    requires k <= |e.vm.volumeIds| && forall v | v in e.vm.volumeIds :: Uuid(v)
    requires Reaches(e, Copies(ImagesOf(e.vm.volumeIds)), s, k)
    ensures RegisteredUpTo(e, s.w, k, At(e, Copies(ImagesOf(e.vm.volumeIds)), s, k).w)
    decreases k
  {
    var p := Copies(ImagesOf(e.vm.volumeIds));
    if k == 0 {
      assert p[..0] == [];
    } else {
      CopiesAt(ImagesOf(e.vm.volumeIds), k - 1);
      hide Exec, Step, Uuid, Copies, RegisteredUpTo;
      ReachPrevious(e, p, s, k - 1, k);
      CopiesPrefix(e, s, k - 1);
      RegistersNext(e, s.w, k - 1, At(e, p, s, k - 1));
    }
  }

  lemma SnocPrefix(base: seq<Volume>, all: seq<Volume>, k: nat)
    requires 0 < k <= |all|
    ensures base + all[..k - 1] + [all[k - 1]] == base + all[..k]
  {
    assert all[..k] == all[..k - 1] + [all[k - 1]];
  }

  // ---------- whole runs ----------

  /** The images copied by a command sequence, in order. */
  function Copied(p: seq<Cmd>): seq<string> {
    if p == [] then []
    else
      var c := p[|p| - 1];
      Copied(p[..|p| - 1]) + if c.Copy? then [c.image] else []
  }

  /** Registered as an image of one of the volumes, with that volume's size, or 10 where its lookup raised. */
  predicate RightlySized(e: Env, trace: seq<Attempt>, v: Volume) {
    exists t, i | 0 <= t < |trace| && 0 <= i < |e.vm.volumeIds| ::
      v.image == ImageOf(e.vm.volumeIds[i]) && trace[t].verb.GetVolume? && trace[t].arg == e.vm.volumeIds[i] &&
      v.sizeGb == if e.raises(t) then 10 else e.sizeGb(e.vm.volumeIds[i])
  }

  predicate Registers(verb: Verb) {
    verb.CreateVolume?
  }

  /** Only copies of the VM's own images register anything. */
  predicate CopiesOwn(e: Env, c: Cmd) {
    (c.Do? || c.Try? ==> !Registers(c.verb)) &&
    (c.Copy? ==> exists i | 0 <= i < |e.vm.volumeIds| :: c.image == ImageOf(e.vm.volumeIds[i]))
  }

  lemma {:induction false} VolumesUntouched(e: Env, w0: World, w1: World)
    requires Extends(e, w0, w1) && forall i | 0 <= i < |New(w0, w1)| :: !Registers(New(w0, w1)[i].verb)
    ensures w1.volumes == w0.volumes
    decreases |w1.trace| - |w0.trace|
  {
    var calls := New(w0, w1);
    if calls != [] {
      var w := After(e, w0, calls[0].verb, calls[0].arg);
      ReplayTrace(e, w, calls[1..]);
      assert New(w, w1) == calls[1..];
      VolumesUntouched(e, w, w1);
    }
  }

  lemma StepRegistersNothing(e: Env, c: Cmd, s: State)
    requires CopiesOwn(e, c) && !c.Copy?
    ensures Step(e, c, s).s.w.volumes == s.w.volumes && s.w.trace <= Step(e, c, s).s.w.trace
  {
    StepGrows(e, c, s);
    var w1 := Step(e, c, s).s.w;
    assert forall i | 0 <= i < |New(s.w, w1)| :: Issues(c, New(s.w, w1)[i].verb);
    VolumesUntouched(e, s.w, w1);
  }

  lemma StepRegistersOne(e: Env, s: State, i: nat)
    requires i < |e.vm.volumeIds| && forall v | v in e.vm.volumeIds :: Uuid(v)
    requires Step(e, Copy(ImageOf(e.vm.volumeIds[i])), s).Ran?
    ensures var w := Step(e, Copy(ImageOf(e.vm.volumeIds[i])), s).s.w;
      s.w.trace <= w.trace && |w.volumes| == |s.w.volumes| + 1 && s.w.volumes <= w.volumes &&
      w.volumes[|s.w.volumes|].image == ImageOf(e.vm.volumeIds[i]) && RightlySized(e, w.trace, w.volumes[|s.w.volumes|])
  {
    CopyOne(e, s, i);
    UuidMatchesOwn(e.vm.volumeIds, i);
    var w := Step(e, Copy(ImageOf(e.vm.volumeIds[i])), s).s.w;
    assert w.trace[|s.w.trace|].verb.GetVolume? && w.trace[|s.w.trace|].arg == e.vm.volumeIds[i];
  }

  lemma StillRight(e: Env, short: seq<Attempt>, trace: seq<Attempt>, v: Volume)
    requires short <= trace && RightlySized(e, short, v)
    ensures RightlySized(e, trace, v)
  {
  }

  /** Whatever a run has registered by command `k`: one volume per copy, in order, each rightly sized. */
  lemma {:induction false} ReachedRegisters(e: Env, p: seq<Cmd>, s: State, k: nat) returns (added: seq<Volume>)
    requires (forall v | v in e.vm.volumeIds :: Uuid(v)) && forall c | c in p :: CopiesOwn(e, c)
    requires Reaches(e, p, s, k)
    ensures var w := At(e, p, s, k).w;
      w.volumes == s.w.volumes + added && |added| == |Copied(p[..k])| &&
      forall i | 0 <= i < |added| :: added[i].image == Copied(p[..k])[i] && RightlySized(e, w.trace, added[i])
    decreases k
  {
    if k == 0 {
      assert p[..0] == [];
      added := [];
    } else {
      ReachPrevious(e, p, s, k - 1, k);
      added := ReachedRegisters(e, p, s, k - 1);
      assert p[..k][..k - 1] == p[..k - 1];
      assert p[k - 1] in p;
      added := Extended(e, p[k - 1], At(e, p, s, k - 1), s.w.volumes, Copied(p[..k - 1]), added);
    }
  }

  lemma Extended(e: Env, c: Cmd, s: State, base: seq<Volume>, images: seq<string>, was: seq<Volume>)
    returns (added: seq<Volume>)
    requires (forall v | v in e.vm.volumeIds :: Uuid(v)) && CopiesOwn(e, c) && Step(e, c, s).Ran?
    requires s.w.volumes == base + was && |was| == |images|
    requires forall i | 0 <= i < |was| :: was[i].image == images[i] && RightlySized(e, s.w.trace, was[i])
    ensures var w := Step(e, c, s).s.w;
      var all := images + if c.Copy? then [c.image] else [];
      w.volumes == base + added && |added| == |all| &&
      forall i | 0 <= i < |added| :: added[i].image == all[i] && RightlySized(e, w.trace, added[i])
  {
    var w := Step(e, c, s).s.w;
    added := was;
    if c.Copy? {
      var n :| 0 <= n < |e.vm.volumeIds| && c.image == ImageOf(e.vm.volumeIds[n]);
      StepRegistersOne(e, s, n);
      added := was + [w.volumes[|s.w.volumes|]];
      assert w.volumes == s.w.volumes + [w.volumes[|s.w.volumes|]];
    } else {
      StepRegistersNothing(e, c, s);
    }
    hide Step, RightlySized;
    forall i | 0 <= i < |was|
      ensures RightlySized(e, w.trace, was[i])
    {
      StillRight(e, s.w.trace, w.trace, was[i]);
    }
  }

  lemma {:induction false} CopiedConcat(p: seq<Cmd>, q: seq<Cmd>)
    ensures Copied(p + q) == Copied(p) + Copied(q)
    decreases |q|
  {
    if q == [] {
      assert p + q == p;
    } else {
      assert (p + q)[..|p + q| - 1] == p + q[..|q| - 1];
      CopiedConcat(p, q[..|q| - 1]);
    }
  }

  lemma {:induction false} CopiedNone(p: seq<Cmd>)
    requires forall c | c in p :: !c.Copy?
    ensures Copied(p) == []
    decreases |p|
  {
    if p != [] {
      assert forall c | c in p[..|p| - 1] :: c in p;
      assert p[|p| - 1] in p;
      CopiedNone(p[..|p| - 1]);
    }
  }

  lemma {:induction false} CopiedAll(images: seq<string>)
    ensures Copied(Copies(images)) == images
    decreases |images|
  {
    if images != [] {
      var n := |images| - 1;
      assert Copies(images)[..n] == Copies(images[..n]);
      CopiedAll(images[..n]);
    }
  }

  lemma {:induction false} CopiedStrip(p: seq<Cmd>)
    ensures Copied(p) == Copied(Strip(p))
    decreases |p|
  {
    if p != [] {
      var q := Strip(p[..|p| - 1]);
      CopiedStrip(p[..|p| - 1]);
      assert (q + [p[|p| - 1]])[..|q|] == q;
    }
  }

  /** Everything of the cold engine before and after its copies. */
  function ColdBeforeCopies(e: Env, j: Job): seq<Cmd> {
    ColdPreflight(e, j) + [CheckAbort] + ColdDisk(e, j) + [Move(Event(Cutover, 70.0))]
  }

  function ColdAfterCopies(e: Env, j: Job): seq<Cmd> {
    ColdBgp(e) + Cleaning(j, 95.0) + Finish()
  }

  lemma CopiesShape(e: Env, j: Job)
    ensures ColdProgram(e, j) == ColdBeforeCopies(e, j) + Copies(Images(e, j)) + ColdAfterCopies(e, j)
  {
    hide ColdPreflight, ColdDisk, ColdBgp, Cleaning, Finish, Copies;
  }

  predicate Copyless(p: seq<Cmd>) {
    forall c | c in p :: !c.Copy? && (c.Do? || c.Try? ==> !Registers(c.verb))
  }

  lemma AroundCopyless(e: Env, j: Job)
    ensures Copyless(ColdBeforeCopies(e, j)) && Copyless(ColdAfterCopies(e, j))
  {
    BeforeCopyless(e, j);
    hide ColdBeforeCopies;
  }

  lemma BeforeCopyless(e: Env, j: Job)
    ensures Copyless(ColdBeforeCopies(e, j))
  {
    assert Copyless(ColdPreflight(e, j) + [CheckAbort]) && Copyless(ColdDisk(e, j));
    hide ColdPreflight, ColdDisk;
  }

  lemma CopiesBetween(a: seq<Cmd>, images: seq<string>, c: seq<Cmd>)
    requires Copyless(a) && Copyless(c)
    ensures Copied(a + Copies(images) + c) == images
  {
    hide Copies;
    CopiedConcat(a, Copies(images));
    CopiedConcat(a + Copies(images), c);
    CopiedNone(a);
    CopiedNone(c);
    CopiedAll(images);
  }

  lemma CopiesAreOwn(e: Env, a: seq<Cmd>, c: seq<Cmd>)
    requires Copyless(a) && Copyless(c)
    ensures forall x | x in a + Copies(ImagesOf(e.vm.volumeIds)) + c :: CopiesOwn(e, x)
  {
    var b := Copies(ImagesOf(e.vm.volumeIds));
    forall x | x in b
      ensures CopiesOwn(e, x)
    {
      var i :| 0 <= i < |b| && b[i] == x;
      assert x.image == ImageOf(e.vm.volumeIds[i]);
    }
    hide CopiesOwn, Copies;
    forall x | x in a + b + c
      ensures CopiesOwn(e, x)
    {
      assert x in a || x in b || x in c;
      CopylessOwn(e, a);
      CopylessOwn(e, c);
    }
  }

  lemma CopylessOwn(e: Env, p: seq<Cmd>)
    requires Copyless(p)
    ensures forall x | x in p :: CopiesOwn(e, x)
  {
  }

  lemma ColdCopies(e: Env, j: Job)
    requires j.preset == []
    ensures Copied(ColdProgram(e, j)) == ImagesOf(e.vm.volumeIds)
    ensures forall c | c in ColdProgram(e, j) :: CopiesOwn(e, c)
  {
    assert Images(e, j) == ImagesOf(e.vm.volumeIds);
    hide ColdProgram, ColdBeforeCopies, ColdAfterCopies, Images, Copies, CopiesOwn, Copied;
    CopiesShape(e, j);
    AroundCopyless(e, j);
    CopiesBetween(ColdBeforeCopies(e, j), ImagesOf(e.vm.volumeIds), ColdAfterCopies(e, j));
    CopiesAreOwn(e, ColdBeforeCopies(e, j), ColdAfterCopies(e, j));
  }

  /**
   A completed cold migration on a fresh context, aborts included, with UUID volume ids, has registered exactly one
   volume per volume of the VM, in order, each under its own image name, with its own size or 10 where its lookup
   raised.
   */
  lemma ColdRunRegisters(e: Env, j: Job, p: seq<Cmd>, s: State) returns (added: seq<Volume>)
    requires !j.live && RunOf(e, j, p) && j.preset == [] && forall v | v in e.vm.volumeIds :: Uuid(v)
    requires Exec(e, p, s).Ran?
    ensures var w := Exec(e, p, s).s.w;
      w.volumes == s.w.volumes + added && |added| == |e.vm.volumeIds| &&
      forall i | 0 <= i < |added| :: added[i].image == ImageOf(e.vm.volumeIds[i]) && RightlySized(e, w.trace, added[i])
  {
    assert p[..|p|] == p;
    ColdCopies(e, j);
    CopiedStrip(p);
    StripMembers(p);
    hide ColdProgram, Strip, Uuid, Copied;
    added := ReachedRegisters(e, p, s, |p|);
  }
}
