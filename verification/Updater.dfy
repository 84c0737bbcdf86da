/**
 Updating the resources of an instance: the new renderings are merged with the live objects while the request
 is handled, and the results are written by the goroutine later, against whatever the cluster is by then.
*/
module Updater {
  import opened Json
  import opened Cluster
  import Config
  import MergePatch
  import Resources

  // ---- Preparing ----

  /** What one template of the list asks for; nothing, if it is a singleton or its rendering has not changed. */
  function PlanOne(ctx: Context, c: Cluster, name: string): Result<Option<Write>> {
    match Config.GetTemplate(ctx.spec.templates, name)
    case None => Err("unable to locate template")
    case Some(template) =>
      if template.singleton then Ok(None)
      else
        match ctx.render(template)
        case Err(e) => Err(e)
        case Ok(rendering) =>
          match Locate(ctx, rendering, ctx.namespace)
          case Err(e) => Err(e)
          case Ok(ref) =>
            if ref !in c.objects then Err("cannot get")
            else
              match Resources.Merged(ctx.codec, c.objects[ref].body, rendering)
              case Err(e) => Err(e)
              case Ok(None) => Ok(None)
              case Ok(Some(merged)) =>
                match Locate(ctx, merged, Some(""))
                case Err(e) => Err(e)
                case Ok(target) => Ok(Some(Write(target, merged, c.objects[ref].version)))
  }

  // ---- When there is a write ----

  /** The first template of that name. */
  ghost predicate Names(ctx: Context, name: string, template: Config.Template) {
    exists n: nat :: Config.FirstTemplate(ctx.spec.templates, name, n) && ctx.spec.templates[n] == template
  }

  /** The template's rendering has a live object, whose annotation says what was rendered last. */
  ghost predicate LiveAt(ctx: Context, c: Cluster, template: Config.Template, rendering: Json, ref: Ref,
          original: Json)
  {
    && ctx.render(template) == Ok(rendering) && rendering.JMap? && original.JMap?
    && Belongs(ctx, rendering, ctx.namespace, ref) && ref in c.objects
    && var annotation := Lookup(c.objects[ref].body, Resources.ANNOTATION_PATH);
    && annotation.Some? && annotation.value.JString? && ctx.codec.decode(annotation.value.s) == Some(original)
  }

  /** Nothing needs to be written: the template is a singleton, or its rendering is what was rendered last. */
  ghost predicate UpToDate(ctx: Context, c: Cluster, name: string) {
    exists template | Names(ctx, name, template) ::
      template.singleton || exists rendering, ref :: LiveAt(ctx, c, template, rendering, ref, rendering)
  }

  /** The object to write: the live one patched by what changed in the rendering, and annotated with the new one. */
  ghost predicate Patched(ctx: Context, live: Json, original: Json, rendering: Json, body: Json)
    requires original.JMap? && rendering.JMap?
  {
    Resources.SetNested(MergePatch.Apply(live, MergePatch.Diff(original, rendering)), Resources.ANNOTATION_PATH,
                        JString(ctx.codec.encode(rendering))) == Some(body)
  }

  /** The write is the one a changed rendering asks for: of the patched object, at the version it was patched at. */
  ghost predicate Asks(ctx: Context, c: Cluster, name: string, template: Config.Template, rendering: Json, ref: Ref,
          original: Json, w: Write)
  {
    && Names(ctx, name, template) && !template.singleton
    && LiveAt(ctx, c, template, rendering, ref, original) && original != rendering
    && w.version == c.objects[ref].version
    && Patched(ctx, c.objects[ref].body, original, rendering, w.body)
    && Belongs(ctx, w.body, Some(""), w.ref)
  }

  ghost predicate AsksFor(ctx: Context, c: Cluster, name: string, w: Write) {
    exists template, rendering, ref, original :: Asks(ctx, c, name, template, rendering, ref, original, w)
  }

  /** The template found is the one named. */
  lemma {:induction false} FoundIsNamed(ctx: Context, name: string, template: Config.Template)
    ensures Config.GetTemplate(ctx.spec.templates, name) == Some(template) <==> Names(ctx, name, template)
  {
    var n := Config.FirstTemplateFound(ctx.spec.templates, name);
    if m: nat :| Config.FirstTemplate(ctx.spec.templates, name, m) && ctx.spec.templates[m] == template {
      assert ctx.spec.templates[m].name == name;
    }
  }

  /** Where a rendering belongs is one place, and what was rendered there last one document. */
  lemma {:induction false} LiveOnce(ctx: Context, c: Cluster, template: Config.Template, rendering: Json, ref: Ref,
          original: Json, rendering': Json, ref': Ref, original': Json)
    requires LiveAt(ctx, c, template, rendering, ref, original)
    requires LiveAt(ctx, c, template, rendering', ref', original')
    ensures rendering == rendering' && ref == ref' && original == original'
  {
    LocateMeans(ctx, rendering, ctx.namespace, ref);
    LocateMeans(ctx, rendering, ctx.namespace, ref');
  }

  /** If a template asks for nothing it is up to date, ... */
  lemma {:induction false} NothingPlanned(ctx: Context, c: Cluster, name: string)
    requires PlanOne(ctx, c, name) == Ok(None)
    ensures UpToDate(ctx, c, name)
  {
    var template := Config.GetTemplate(ctx.spec.templates, name).value;
    FoundIsNamed(ctx, name, template);
    if !template.singleton {
      var rendering := ctx.render(template).value;
      var ref := Locate(ctx, rendering, ctx.namespace).value;
      LocateMeans(ctx, rendering, ctx.namespace, ref);
      assert LiveAt(ctx, c, template, rendering, ref, rendering);
    }
  }

  /** ... if it asks for a write it is the one its changed rendering asks for, ... */
  lemma {:induction false} WritePlanned(ctx: Context, c: Cluster, name: string, w: Write)
    requires PlanOne(ctx, c, name) == Ok(Some(w))
    ensures AsksFor(ctx, c, name, w)
  {
    var template := Config.GetTemplate(ctx.spec.templates, name).value;
    FoundIsNamed(ctx, name, template);
    var rendering := ctx.render(template).value;
    var ref := Locate(ctx, rendering, ctx.namespace).value;
    LocateMeans(ctx, rendering, ctx.namespace, ref);
    var original := ctx.codec.decode(Lookup(c.objects[ref].body, Resources.ANNOTATION_PATH).value.s).value;
    LocateMeans(ctx, w.body, Some(""), w.ref);
    assert Asks(ctx, c, name, template, rendering, ref, original, w);
  }

  /** ... and the other way round: one that is up to date asks for nothing, ... */
  lemma {:induction false} UpToDatePlansNothing(ctx: Context, c: Cluster, name: string)
    requires UpToDate(ctx, c, name)
    ensures PlanOne(ctx, c, name) == Ok(None)
  {
    var template :| Names(ctx, name, template)
      && (template.singleton || exists rendering, ref :: LiveAt(ctx, c, template, rendering, ref, rendering));
    FoundIsNamed(ctx, name, template);
    if !template.singleton {
      var rendering, ref :| LiveAt(ctx, c, template, rendering, ref, rendering);
      LocateMeans(ctx, rendering, ctx.namespace, ref);
    }
  }

  /** ... and one whose rendering has changed asks for its write. */
  lemma {:induction false} ChangedPlansWrite(ctx: Context, c: Cluster, name: string, w: Write)
    requires AsksFor(ctx, c, name, w)
    ensures PlanOne(ctx, c, name) == Ok(Some(w))
  {
    var template, rendering, ref, original :| Asks(ctx, c, name, template, rendering, ref, original, w);
    FoundIsNamed(ctx, name, template);
    LocateMeans(ctx, rendering, ctx.namespace, ref);
    LocateMeans(ctx, w.body, Some(""), w.ref);
  }

  /**
   A template asks for nothing exactly if it is up to date, for a write exactly if its rendering has changed and can be
   merged; anything else, such as a missing template, object or annotation, is an error.
  */
  lemma {:induction false} PlannedExactly(ctx: Context, c: Cluster, name: string)
    ensures PlanOne(ctx, c, name) == Ok(None) <==> UpToDate(ctx, c, name)
    ensures forall w :: PlanOne(ctx, c, name) == Ok(Some(w)) <==> AsksFor(ctx, c, name, w)
    ensures PlanOne(ctx, c, name).Err? <==> !UpToDate(ctx, c, name) && forall w :: !AsksFor(ctx, c, name, w)
  {
    if UpToDate(ctx, c, name) { UpToDatePlansNothing(ctx, c, name); }
    if PlanOne(ctx, c, name) == Ok(None) { NothingPlanned(ctx, c, name); }
    forall w ensures PlanOne(ctx, c, name) == Ok(Some(w)) <==> AsksFor(ctx, c, name, w) {
      if AsksFor(ctx, c, name, w) { ChangedPlansWrite(ctx, c, name, w); }
      if PlanOne(ctx, c, name) == Ok(Some(w)) { WritePlanned(ctx, c, name, w); }
    }
    if PlanOne(ctx, c, name).Ok? && PlanOne(ctx, c, name).value.Some? {
      assert AsksFor(ctx, c, name, PlanOne(ctx, c, name).value.value);
    }
  }

  /** With the merge possible, the write of a changed rendering is asked for. */
  lemma {:induction false} ChangedIsWritten(ctx: Context, c: Cluster, name: string, template: Config.Template,
          rendering: Json, ref: Ref, original: Json, w: Write)
    requires Names(ctx, name, template) && LiveAt(ctx, c, template, rendering, ref, original)
    ensures PlanOne(ctx, c, name) == Ok(None) <==> template.singleton || original == rendering
    ensures (&& !template.singleton && original != rendering && w.version == c.objects[ref].version
             && Patched(ctx, c.objects[ref].body, original, rendering, w.body)
             && Belongs(ctx, w.body, Some(""), w.ref)) ==>
              PlanOne(ctx, c, name) == Ok(Some(w))
  {
    PlannedExactly(ctx, c, name);
    if UpToDate(ctx, c, name) && !template.singleton {
      var t :| Names(ctx, name, t)
        && (t.singleton || exists rendering', ref' :: LiveAt(ctx, c, t, rendering', ref', rendering'));
      FoundIsNamed(ctx, name, t);
      FoundIsNamed(ctx, name, template);
      var rendering', ref' :| LiveAt(ctx, c, template, rendering', ref', rendering');
      LiveOnce(ctx, c, template, rendering, ref, original, rendering', ref', rendering');
    }
    if !template.singleton && original != rendering && w.version == c.objects[ref].version
       && Patched(ctx, c.objects[ref].body, original, rendering, w.body) && Belongs(ctx, w.body, Some(""), w.ref) {
      assert Asks(ctx, c, name, template, rendering, ref, original, w);
    }
  }

  /** The writes of all templates, each made from the cluster as it was when that template's turn came. */
  function Plan(ctx: Context, views: seq<Cluster>, names: seq<string>): Result<seq<Write>>
    requires |views| == |names|
    decreases |names|
  {
    if names == [] then Ok([])
    else
      var n := |names| - 1;
      match Plan(ctx, views[..n], names[..n])
      case Err(e) => Err(e)
      case Ok(before) =>
        match PlanOne(ctx, views[n], names[n])
        case Err(e) => Err(e)
        case Ok(None) => Ok(before)
        case Ok(Some(w)) => Ok(before + [w])
  }

  /** One template that can not be merged stops the plan. */
  lemma {:induction false} PlanStops(ctx: Context, views: seq<Cluster>, names: seq<string>, n: nat)
    requires |views| == |names| && n < |names| && PlanOne(ctx, views[n], names[n]).Err?
    ensures Plan(ctx, views, names).Err?
    decreases |names|
  {
    var m := |names| - 1;
    if n < m {
      PlanStops(ctx, views[..m], names[..m], n);
    }
  }

  /** A template that is neither up to date nor changed in a way that can be merged. */
  ghost predicate Stuck(ctx: Context, c: Cluster, name: string) {
    !UpToDate(ctx, c, name) && forall w :: !AsksFor(ctx, c, name, w)
  }

  lemma {:induction false} StuckOnError(ctx: Context, c: Cluster, name: string)
    requires PlanOne(ctx, c, name).Err?
    ensures Stuck(ctx, c, name)
  {
    PlannedExactly(ctx, c, name);
  }

  /** Every template was up to date or has its write among the planned ones, and these are all of such templates. */
  ghost predicate Accounted(ctx: Context, views: seq<Cluster>, names: seq<string>, writes: seq<Write>)
    requires |views| == |names|
  {
    && (forall i | 0 <= i < |names| :: UpToDate(ctx, views[i], names[i]) || HasWrite(ctx, views[i], names[i], writes))
    && (forall w | w in writes :: exists i | 0 <= i < |names| :: AsksFor(ctx, views[i], names[i], w))
  }

  ghost predicate HasWrite(ctx: Context, c: Cluster, name: string, writes: seq<Write>) {
    exists w :: w in writes && AsksFor(ctx, c, name, w)
  }

  lemma {:induction false} PlanAccounts(ctx: Context, views: seq<Cluster>, names: seq<string>)
    requires |views| == |names| && Plan(ctx, views, names).Ok?
    ensures Accounted(ctx, views, names, Plan(ctx, views, names).value)
  {
    var writes := Plan(ctx, views, names).value;
    forall i | 0 <= i < |names| ensures UpToDate(ctx, views[i], names[i]) || HasWrite(ctx, views[i], names[i], writes) {
      var k := Planned(ctx, views, names, i);
      PlannedExactly(ctx, views[i], names[i]);
      if PlanOne(ctx, views[i], names[i]).value.Some? {
        assert writes[k] in writes && AsksFor(ctx, views[i], names[i], writes[k]);
      }
    }
    forall w | w in writes ensures exists i | 0 <= i < |names| :: AsksFor(ctx, views[i], names[i], w) {
      var k: nat :| k < |writes| && writes[k] == w;
      var i := PlannedForTemplates(ctx, views, names, k);
      PlannedExactly(ctx, views[i], names[i]);
    }
  }

  /** The cluster at successive times. */
  ghost predicate Timeline(cs: seq<Cluster>) {
    && (forall i | 0 <= i < |cs| :: Wellformed(cs[i]))
    && (forall i, j | 0 <= i < j < |cs| :: Evolves(cs[i], cs[j]))
  }

  lemma {:induction false} TimeGoesOn(cs: seq<Cluster>, d: Cluster)
    requires Timeline(cs) && cs != [] && Evolves(cs[|cs| - 1], d)
    ensures Timeline(cs + [d])
  {
  }

  class Updater {
    var resources: seq<Write>

    constructor ()
      ensures resources == []
    {
      resources := [];
    }

    /** Merges one template's rendering with the live object. */
    method Merge(ctx: Context, api: ApiServer, name: string) returns (r: Result<Option<Write>>)
      ensures r.Ok? ==> r == PlanOne(ctx, api.state, name)
      ensures api.reliable && r.Err? ==> PlanOne(ctx, api.state, name).Err?
    {
      var template := Config.GetTemplate(ctx.spec.templates, name);
      if template.None? { return Err("unable to locate template"); }
      if template.value.singleton { return Ok(None); }
      var rendering := ctx.render(template.value);
      if rendering.Err? { return Err(rendering.error); }
      var ref := Locate(ctx, rendering.value, ctx.namespace);
      if ref.Err? { return Err(ref.error); }
      var current := api.Get(ref.value);
      if current.Err? || current.value.None? { return Err("cannot get"); }
      var live := current.value.value;
      var merged := Resources.Merged(ctx.codec, live.body, rendering.value);
      if merged.Err? { return Err(merged.error); }
      if merged.value.None? { return Ok(None); }
      var target := Locate(ctx, merged.value.value, Some(""));
      if target.Err? { return Err(target.error); }
      return Ok(Some(Write(target.value, merged.value.value, live.version)));
    }

    /**
     Preparing plans the writes for the templates listed, not those of the steps, and changes nothing; `views` is
     the cluster as others left it when each template's turn came. If anything goes wrong the update is off.
    */
    method Prepare(ctx: Context, api: ApiServer, list: Config.TemplateList)
      returns (ok: bool, ghost views: seq<Cluster>)
      requires resources == [] && Wellformed(api.state)
      modifies this, api
      ensures api.quiet ==> api.state == old(api.state)
      ensures Timeline([old(api.state)] + views) && api.state == ([old(api.state)] + views)[|views|]
      ensures ok ==> |views| == |list.templates| && Plan(ctx, views, list.templates) == Ok(resources)
      ensures ok ==> Accounted(ctx, views, list.templates, resources)
      ensures !ok ==>
                && 0 < |views| <= |list.templates|
                && (api.reliable ==> Stuck(ctx, views[|views| - 1], list.templates[|views| - 1]))
    {
      var names := list.templates;
      views := [];
      for n := 0 to |names|
        invariant |views| == n
        invariant api.quiet ==> api.state == old(api.state)
        invariant Timeline([old(api.state)] + views) && api.state == ([old(api.state)] + views)[n]
        invariant Plan(ctx, views, names[..n]) == Ok(resources)
      {
        assert names[..n + 1][..n] == names[..n];
        api.Others();
        TimeGoesOn([old(api.state)] + views, api.state);
        assert [old(api.state)] + views + [api.state] == [old(api.state)] + (views + [api.state]);
        assert (views + [api.state])[..n] == views;
        views := views + [api.state];
        var write := Merge(ctx, api, names[n]);
        if write.Err? {
          if PlanOne(ctx, api.state, names[n]).Err? { StuckOnError(ctx, api.state, names[n]); }
          return false, views;
        }
        if write.value.Some? { resources := resources + [write.value.value]; }
      }
      assert names[..|names|] == names;
      PlanAccounts(ctx, views, names);
      return true, views;
    }

    /** Writes in order, up to the first write that fails; `rounds` are those that landed, and what they found. */
    method Run(api: ApiServer) returns (ok: bool, ghost rounds: seq<Round>)
      requires Wellformed(api.state)
      modifies api
      ensures Writes(rounds) <= resources && (ok <==> Writes(rounds) == resources)
      ensures Lands(old(api.state), rounds) && Evolves(After(old(api.state), rounds), api.state)
      ensures ok ==> api.state == After(old(api.state), rounds)
      ensures api.reliable && !ok ==> !CanWrite(api.state, resources[|rounds|])
      ensures api.quiet ==> Undisturbed(old(api.state), rounds) && api.state == After(old(api.state), rounds)
    {
      rounds := [];
      for n := 0 to |resources|
        invariant Writes(rounds) == resources[..n]
        invariant Lands(old(api.state), rounds) && api.state == After(old(api.state), rounds) && Wellformed(api.state)
        invariant api.quiet ==> Undisturbed(old(api.state), rounds)
      {
        api.Others();
        ghost var round := Round(api.state, resources[n]);
        ok := api.Update(resources[n]);
        if !ok { return; }
        OneMoreRound(rounds, round);
        WritingEvolves(round.before, round.write);
        rounds := rounds + [round];
      }
      ok := true;
    }
  }

  // ---- Writing ----

  /** A write that landed, and the cluster right before it. */
  datatype Round = Round(before: Cluster, write: Write)

  function Writes(rounds: seq<Round>): (r: seq<Write>)
    ensures |r| == |rounds| && forall n | 0 <= n < |rounds| :: r[n] == rounds[n].write
    decreases |rounds|
  {
    if rounds == [] then [] else Writes(rounds[..|rounds| - 1]) + [rounds[|rounds| - 1].write]
  }

  lemma {:induction false} OneMoreRound(rounds: seq<Round>, round: Round)
    ensures Writes(rounds + [round]) == Writes(rounds) + [round.write]
    ensures (rounds + [round])[..|rounds|] == rounds
  {
    assert (rounds + [round])[..|rounds|] == rounds;
  }

  /** The cluster right after the last round. */
  function After(start: Cluster, rounds: seq<Round>): Cluster {
    if rounds == [] then start else AfterWrite(rounds[|rounds| - 1].before, rounds[|rounds| - 1].write)
  }

  /** Nobody else changes anything from `start` on. */
  predicate Undisturbed(start: Cluster, rounds: seq<Round>)
    decreases |rounds|
  {
    rounds != [] ==>
      Undisturbed(start, rounds[..|rounds| - 1]) && rounds[|rounds| - 1].before == After(start, rounds[..|rounds| - 1])
  }

  /** Every write finds the version it was merged from, whatever others do in between. */
  predicate Lands(start: Cluster, rounds: seq<Round>)
    decreases |rounds|
  {
    rounds != [] ==>
      var earlier, last := rounds[..|rounds| - 1], rounds[|rounds| - 1];
      Lands(start, earlier) && Evolves(After(start, earlier), last.before) && CanWrite(last.before, last.write)
  }

  lemma {:induction false} EvolvesOn(c: Cluster, d: Cluster, e: Cluster)
    requires Evolves(c, d) && Evolves(d, e)
    ensures Evolves(c, e)
  {
  }

  /** Writing is one way for a cluster to evolve. */
  lemma {:induction false} WritingEvolves(c: Cluster, w: Write)
    requires Wellformed(c)
    ensures Evolves(c, AfterWrite(c, w))
  {
  }

  lemma {:induction false} LandsUpTo(start: Cluster, rounds: seq<Round>, n: nat)
    requires Lands(start, rounds) && n <= |rounds|
    ensures Lands(start, rounds[..n])
    decreases |rounds|
  {
    if n < |rounds| {
      var earlier := rounds[..|rounds| - 1];
      LandsUpTo(start, earlier, n);
      assert earlier[..n] == rounds[..n];
    } else {
      assert rounds[..n] == rounds;
    }
  }

  /** From the end of one round to what the last one finds. */
  lemma {:induction false} RoundsEvolve(start: Cluster, rounds: seq<Round>, i: nat)
    requires Wellformed(start) && Lands(start, rounds) && i < |rounds|
    ensures Evolves(After(start, rounds[..i]), rounds[|rounds| - 1].before)
    decreases |rounds|
  {
    var n := |rounds| - 1;
    var earlier := rounds[..n];
    if i < n {
      RoundsEvolve(start, earlier, i);
      assert earlier[..i] == rounds[..i];
      WritingEvolves(earlier[n - 1].before, earlier[n - 1].write);
      EvolvesOn(After(start, rounds[..i]), earlier[n - 1].before, After(start, earlier));
      EvolvesOn(After(start, rounds[..i]), After(start, earlier), rounds[n].before);
    }
  }

  /** Planned writes are of versions the cluster had at the time. */
  lemma {:induction false} PlannedVersions(ctx: Context, views: seq<Cluster>, names: seq<string>, k: nat)
    requires |views| == |names| && Timeline(views) && Plan(ctx, views, names).Ok? && k < |Plan(ctx, views, names).value|
    ensures views != [] && Plan(ctx, views, names).value[k].version <= views[|views| - 1].clock
    decreases |names|
  {
    var n := |names| - 1;
    if k < |Plan(ctx, views[..n], names[..n]).value| {
      PlannedVersions(ctx, views[..n], names[..n], k);
    }
  }

  /** An object written in an earlier state of the cluster has a version that was never planned for. */
  lemma {:induction false} WrittenIsNew(c: Cluster, w: Write, d: Cluster, v: Write)
    requires Evolves(AfterWrite(c, w), d) && CanWrite(d, v) && v.version <= c.clock
    ensures v.ref != w.ref
  {
    assert AfterWrite(c, w).objects[w.ref].version == c.clock + 1;
  }

  /** A round finds a state that start and every earlier round have evolved into. */
  lemma {:induction false} RoundFinds(start: Cluster, rounds: seq<Round>, k: nat)
    requires Wellformed(start) && Lands(start, rounds) && k < |rounds|
    ensures Evolves(start, rounds[k].before) && CanWrite(rounds[k].before, rounds[k].write)
  {
    LandsUpTo(start, rounds, k + 1);
    RoundsEvolve(start, rounds[..k + 1], 0);
    assert rounds[..k + 1][..0] == [];
  }

  /** What a round leaves. */
  lemma {:induction false} RoundLeaves(start: Cluster, rounds: seq<Round>, i: nat)
    requires i < |rounds|
    ensures After(start, rounds[..i + 1]) == AfterWrite(rounds[i].before, rounds[i].write)
  {
  }

  lemma {:induction false} RoundFindsEarlier(start: Cluster, rounds: seq<Round>, i: nat, k: nat)
    requires Wellformed(start) && Lands(start, rounds) && i < k < |rounds|
    ensures Evolves(AfterWrite(rounds[i].before, rounds[i].write), rounds[k].before)
    decreases |rounds|
  {
    if k < |rounds| - 1 {
      RoundFindsEarlier(start, rounds[..|rounds| - 1], i, k);
    } else {
      RoundsEvolve(start, rounds, i + 1);
      RoundLeaves(start, rounds, i);
    }
  }

  /**
   Writes that were planned before the run started and all land are of different objects: a second write of an object
   would find the version the first has left.
  */
  lemma {:induction false} LandingWritesDiffer(start: Cluster, rounds: seq<Round>, i: nat, k: nat)
    requires Wellformed(start) && Lands(start, rounds) && i < k < |rounds| && rounds[k].write.version <= start.clock
    ensures rounds[i].write.ref != rounds[k].write.ref
  {
    RoundFinds(start, rounds, i);
    RoundFinds(start, rounds, k);
    RoundFindsEarlier(start, rounds, i, k);
    WrittenIsNew(rounds[i].before, rounds[i].write, rounds[k].before, rounds[k].write);
  }

  /** The write a template asked for is among the planned ones. */
  lemma {:induction false} Planned(ctx: Context, views: seq<Cluster>, names: seq<string>, i: nat) returns (k: nat)
    requires |views| == |names| && Plan(ctx, views, names).Ok? && i < |names|
    ensures PlanOne(ctx, views[i], names[i]).Ok?
    ensures PlanOne(ctx, views[i], names[i]).value.Some? ==>
              k < |Plan(ctx, views, names).value|
                  && Plan(ctx, views, names).value[k] == PlanOne(ctx, views[i], names[i]).value.value
    decreases |names|
  {
    var n := |names| - 1;
    if i == n {
      k := |Plan(ctx, views[..n], names[..n]).value|;
    } else {
      k := Planned(ctx, views[..n], names[..n], i);
    }
  }

  /**
   A successful update, however the cluster changes while it is prepared, before it runs and between its writes: each
   changed resource is written over the very object it was merged from, becomes exactly that merge, and carries its new
   rendering as its annotation; no other write of the update touches it.
  */
  lemma {:induction false} UpdateLands(ctx: Context, views: seq<Cluster>, names: seq<string>, start: Cluster,
          rounds: seq<Round>, i: nat, w: Write) returns (rendering: Json, k: nat)
    requires |views| == |names| && Timeline(views + [start]) && Plan(ctx, views, names) == Ok(Writes(rounds))
    requires Lands(start, rounds)
    requires i < |names| && PlanOne(ctx, views[i], names[i]) == Ok(Some(w))
    ensures var template := Config.GetTemplate(ctx.spec.templates, names[i]);
            template.Some? && !template.value.singleton && ctx.render(template.value) == Ok(rendering)
    ensures k < |rounds| && rounds[k].write == w
    ensures forall j | 0 <= j < |rounds| && j != k :: rounds[j].write.ref != w.ref
    ensures var before := rounds[k].before;
            w.ref in before.objects && w.ref in views[i].objects && before.objects[w.ref] == views[i].objects[w.ref]
    ensures var after := After(start, rounds[..k + 1]);
            && w.ref in after.objects && after.objects[w.ref].body == w.body
            && Lookup(w.body, Resources.ANNOTATION_PATH) == Some(JString(ctx.codec.encode(rendering)))
            && (Locate(ctx, rendering, ctx.namespace) == Ok(w.ref) ==>
                  Resources.Merged(ctx.codec, views[i].objects[w.ref].body, rendering) == Ok(Some(w.body)))
  {
    rendering := MergedOne(ctx, views[i], names[i], w);
    k := Planned(ctx, views, names, i);
    assert Writes(rounds)[k] == w && rounds[k].write == w;
    WriteLands(ctx, views, names, start, rounds, i, k);
    RoundLeaves(start, rounds, k);
  }

  lemma {:induction false} WriteLands(ctx: Context, views: seq<Cluster>, names: seq<string>, start: Cluster,
          rounds: seq<Round>, i: nat, k: nat)
    requires |views| == |names| && Timeline(views + [start]) && Plan(ctx, views, names) == Ok(Writes(rounds))
    requires Lands(start, rounds)
    requires i < |names| && k < |rounds| && PlanOne(ctx, views[i], names[i]) == Ok(Some(rounds[k].write))
    ensures forall j | 0 <= j < |rounds| && j != k :: rounds[j].write.ref != rounds[k].write.ref
    ensures var w := rounds[k].write;
            && w.ref in rounds[k].before.objects && w.ref in views[i].objects
            && rounds[k].before.objects[w.ref] == views[i].objects[w.ref]
  {
    TimelineEnds(views, start, i);
    forall j | 0 <= j < |rounds| ensures rounds[j].write.version <= start.clock {
      TimelineEnds(views, start, |views| - 1);
      PlannedVersions(ctx, views, names, j);
    }
    forall j | 0 <= j < |rounds| && j != k ensures rounds[j].write.ref != rounds[k].write.ref {
      if j < k { LandingWritesDiffer(start, rounds, j, k); } else { LandingWritesDiffer(start, rounds, k, j); }
    }
    RoundFinds(start, rounds, k);
    EvolvesOn(views[i], start, rounds[k].before);
    WrittenVersion(ctx, views[i], names[i], rounds[k].write);
  }

  lemma {:induction false} TimelineEnds(views: seq<Cluster>, start: Cluster, i: nat)
    requires Timeline(views + [start]) && i < |views|
    ensures Timeline(views) && Wellformed(start) && Evolves(views[i], start)
  {
    var all := views + [start];
    assert forall j | 0 <= j < |views| :: all[j] == views[j];
    assert all[|views|] == start;
  }

  lemma {:induction false} WrittenVersion(ctx: Context, c: Cluster, name: string, w: Write)
    requires Wellformed(c) && PlanOne(ctx, c, name) == Ok(Some(w))
    ensures w.version <= c.clock
  {
  }

  /** What a planned write is made of. */
  lemma {:induction false} MergedOne(ctx: Context, c: Cluster, name: string, w: Write) returns (rendering: Json)
    requires PlanOne(ctx, c, name) == Ok(Some(w))
    ensures var template := Config.GetTemplate(ctx.spec.templates, name);
            template.Some? && !template.value.singleton && ctx.render(template.value) == Ok(rendering)
    ensures && Lookup(w.body, Resources.ANNOTATION_PATH) == Some(JString(ctx.codec.encode(rendering)))
            && (Locate(ctx, rendering, ctx.namespace) == Ok(w.ref) ==>
                  w.ref in c.objects
                      && Resources.Merged(ctx.codec, c.objects[w.ref].body, rendering) == Ok(Some(w.body)))
  {
    rendering := ctx.render(Config.GetTemplate(ctx.spec.templates, name).value).value;
    var live := c.objects[Locate(ctx, rendering, ctx.namespace).value].body;
    Resources.MergedIsAnnotated(ctx.codec, live, rendering);
  }

  /** With nobody else at work nothing is changed that is not the target of a write. */
  lemma {:induction false} UpdateTouchesOnlyItsTargets(start: Cluster, rounds: seq<Round>, r: Ref)
    requires Undisturbed(start, rounds) && forall k | 0 <= k < |rounds| :: rounds[k].write.ref != r
    ensures var after := After(start, rounds);
            (r in after.objects <==> r in start.objects)
                && (r in start.objects ==> after.objects[r] == start.objects[r])
    decreases |rounds|
  {
    if rounds != [] {
      UpdateTouchesOnlyItsTargets(start, rounds[..|rounds| - 1], r);
    }
  }

  /** Every planned write is a template's, and no singleton's. */
  lemma {:induction false} PlannedForTemplates(ctx: Context, views: seq<Cluster>, names: seq<string>, k: nat)
    returns (i: nat)
    requires |views| == |names| && Plan(ctx, views, names).Ok? && k < |Plan(ctx, views, names).value|
    ensures i < |names| && PlanOne(ctx, views[i], names[i]) == Ok(Some(Plan(ctx, views, names).value[k]))
    ensures Config.GetTemplate(ctx.spec.templates, names[i]).Some?
    ensures !Config.GetTemplate(ctx.spec.templates, names[i]).value.singleton
    decreases |names|
  {
    var n := |names| - 1;
    if k < |Plan(ctx, views[..n], names[..n]).value| {
      i := PlannedForTemplates(ctx, views[..n], names[..n], k);
    } else {
      i := n;
    }
  }

  /**
   Creation goes through the steps if there are any, updates through the templates listed: what was created from a
   template that only steps name is never updated.
  */
  lemma {:induction false} StepsAreNotUpdated(ctx: Context, views: seq<Cluster>, list: Config.TemplateList,
          name: string, k: nat)
    returns (i: nat)
    requires |views| == |list.templates| && Plan(ctx, views, list.templates).Ok?
    requires k < |Plan(ctx, views, list.templates).value|
    requires name !in list.templates && exists step :: step in Config.StepsOf(list) && name in step.templates
    ensures list.steps.Some?
    ensures i < |views| && list.templates[i] != name
    ensures PlanOne(ctx, views[i], list.templates[i]) == Ok(Some(Plan(ctx, views, list.templates).value[k]))
  {
    i := PlannedForTemplates(ctx, views, list.templates, k);
  }
}
