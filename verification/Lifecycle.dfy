/** Lifecycle hooks: the events they run at, the resources they declare, and the
    rules their declaration has to keep. */
module Lifecycle {
  import opened Collections
  import opened Wrappers
  import opened Naming

  const EVENTS: seq<LifecycleEvent> :=
    [CreatePre, CreatePost, StartPre, StartPost, StopPre, StopPost, RemovePre, RemovePost]

  predicate Acquires(ev: LifecycleEvent) {
    ev == CreatePre || ev == CreatePost || ev == StartPre || ev == StartPost
  }

  /** The events that may release what ev acquired. */
  function Releases(ev: LifecycleEvent): set<LifecycleEvent> {
    if ev == CreatePre || ev == CreatePost then {RemovePre, RemovePost}
    else if ev == StartPre || ev == StartPost then {StopPre, StopPost}
    else {}
  }

  predicate AtStop(ev: LifecycleEvent) {
    ev == StopPre || ev == StopPost
  }

  // OnErrorUnset is the empty string of the source.
  datatype OnError = OnErrorUnset | Fail | Continue | Ignore

  function Resolved(o: OnError): OnError {
    if o == OnErrorUnset then Fail else o
  }

  datatype Exec = Exec(args: seq<string>, onError: OnError)

  datatype Hook = Hook(name: string, resource: Option<string>, events: map<LifecycleEvent, Exec>)

  // ---- Declaration rules ----------------------------------------------------

  function AcquiresOf(h: Hook): set<LifecycleEvent> {
    set ev | ev in h.events && Acquires(ev)
  }

  function ReleasesOf(h: Hook): set<LifecycleEvent> {
    set ev | ev in h.events && !Acquires(ev)
  }

  /** A resource is acquired at one event, and released at one of the events that
      match it, or at none. */
  predicate ResourceEventsOk(h: Hook) {
    && (exists a :: AcquiresOf(h) == {a} && ReleasesOf(h) <= Releases(a))
    && |ReleasesOf(h)| <= 1
  }

  predicate HookOk(h: Hook) {
    && ValidName(h.name)
    && h.events != map[]
    && (forall ev :: ev in h.events ==> h.events[ev].args != [])
    && (h.resource.Some? ==> ValidName(h.resource.value) && ResourceEventsOk(h))
  }

  predicate HooksOk(hooks: seq<Hook>) {
    && (forall i :: 0 <= i < |hooks| ==> HookOk(hooks[i]))
    && (forall i, j :: 0 <= i < j < |hooks| ==> hooks[i].name != hooks[j].name)
    && (forall i, j :: 0 <= i < j < |hooks| && hooks[i].resource.Some? ==> hooks[i].resource != hooks[j].resource)
  }

  /** Of these events the hook has exactly one. */
  predicate One(h: Hook, a: LifecycleEvent, b: LifecycleEvent) {
    a in h.events <==> b !in h.events
  }

  predicate Neither(h: Hook, a: LifecycleEvent, b: LifecycleEvent) {
    a !in h.events && b !in h.events
  }

  predicate AroundCreation(h: Hook) {
    && One(h, CreatePre, CreatePost) && (One(h, RemovePre, RemovePost) || Neither(h, RemovePre, RemovePost))
    && Neither(h, StartPre, StartPost) && Neither(h, StopPre, StopPost)
  }

  predicate AroundStart(h: Hook) {
    && One(h, StartPre, StartPost) && (One(h, StopPre, StopPost) || Neither(h, StopPre, StopPost))
    && Neither(h, CreatePre, CreatePost) && Neither(h, RemovePre, RemovePost)
  }

  lemma AtMostOne(s: set<LifecycleEvent>, a: LifecycleEvent, b: LifecycleEvent)
    requires s <= {a, b} && a != b
    ensures |s| <= 1 <==> !(a in s && b in s)
  {
    if a in s && b in s {
      assert s == {a, b};
    } else if a in s {
      assert s == {a};
    } else if b in s {
      assert s == {b};
    } else {
      assert s == {};
    }
  }

  lemma CreationOk(h: Hook)
    requires AroundCreation(h)
    ensures ResourceEventsOk(h)
  {
    var a := if CreatePre in h.events then CreatePre else CreatePost;
    assert AcquiresOf(h) == {a};
    AtMostOne(ReleasesOf(h), RemovePre, RemovePost);
  }

  lemma StartOk(h: Hook)
    requires AroundStart(h)
    ensures ResourceEventsOk(h)
  {
    var a := if StartPre in h.events then StartPre else StartPost;
    assert AcquiresOf(h) == {a};
    AtMostOne(ReleasesOf(h), StopPre, StopPost);
  }

  /** A resource is acquired around the creation of its replica or around its start, at
      one event, and released around the removal or the stop, respectively, at one event
      or none. */
  lemma ResourceEventsMatch(h: Hook)
    ensures ResourceEventsOk(h) <==> AroundCreation(h) || AroundStart(h)
  {
    if AroundCreation(h) {
      CreationOk(h);
    } else if AroundStart(h) {
      StartOk(h);
    } else if ResourceEventsOk(h) {
      var a :| AcquiresOf(h) == {a} && ReleasesOf(h) <= Releases(a);
      assert forall ev :: ev in h.events && Acquires(ev) ==> ev in AcquiresOf(h);
      assert forall ev :: ev in h.events && !Acquires(ev) ==> ev in ReleasesOf(h);
      assert a in AcquiresOf(h);
      if a == CreatePre || a == CreatePost {
        AtMostOne(ReleasesOf(h), RemovePre, RemovePost);
      } else {
        AtMostOne(ReleasesOf(h), StopPre, StopPost);
      }
      assert false;
    }
  }

  /** hooks[i] declares the resource key. */
  predicate Declares(hooks: seq<Hook>, i: int, key: string) {
    0 <= i < |hooks| && hooks[i].resource == Some(key)
  }

  /** Among accepted hooks a resource has one hook and at most one release event. */
  lemma OneRelease(hooks: seq<Hook>, i: int, e: LifecycleEvent, j: int, f: LifecycleEvent, key: string)
    requires HooksOk(hooks) && Declares(hooks, i, key) && Declares(hooks, j, key)
    requires e in hooks[i].events && !Acquires(e) && f in hooks[j].events && !Acquires(f)
    ensures i == j && e == f
  {
    assert HookOk(hooks[i]);
    var releases := ReleasesOf(hooks[i]);
    assert e in releases && (i == j ==> f in releases);
    if e != f && i == j {
      assert {e, f} <= releases;
      SubsetSize({e, f}, releases);
    }
  }

  /** The events of h among seen that acquire, or that do not. */
  function Among(h: Hook, seen: seq<LifecycleEvent>, acquire: bool): set<LifecycleEvent> {
    set ev | ev in seen && ev in h.events && Acquires(ev) == acquire
  }

  method ValidateResourceEvents(h: Hook) returns (ok: bool)
    ensures ok <==> ResourceEventsOk(h)
  {
    var acquires, releases: seq<LifecycleEvent> := [], [];
    for i := 0 to |EVENTS|
      invariant OnceEach(acquires, Among(h, EVENTS[..i], true))
      invariant OnceEach(releases, Among(h, EVENTS[..i], false))
    {
      assert EVENTS[..i + 1] == EVENTS[..i] + [EVENTS[i]];
      assert EVENTS[i] !in EVENTS[..i];
      OnceEachMore(acquires, Among(h, EVENTS[..i], true), EVENTS[i]);
      OnceEachMore(releases, Among(h, EVENTS[..i], false), EVENTS[i]);
      AmongMore(h, EVENTS[..i], EVENTS[i]);
      if EVENTS[i] in h.events {
        if Acquires(EVENTS[i]) {
          acquires := acquires + [EVENTS[i]];
        } else {
          releases := releases + [EVENTS[i]];
        }
      }
    }
    AllEvents();
    assert EVENTS[..|EVENTS|] == EVENTS;
    assert OnceEach(acquires, AcquiresOf(h)) && OnceEach(releases, ReleasesOf(h)) by {
      assert AcquiresOf(h) == Among(h, EVENTS[..|EVENTS|], true);
      assert ReleasesOf(h) == Among(h, EVENTS[..|EVENTS|], false);
    }
    OnceEachSize(acquires, AcquiresOf(h));
    OnceEachSize(releases, ReleasesOf(h));
    if |acquires| != 1 {
      OneAcquire(h);
      return false;
    }
    assert acquires[0] in acquires;
    OneElement(AcquiresOf(h), acquires[0]);
    for i := 0 to |releases|
      invariant forall k :: 0 <= k < i ==> releases[k] in Releases(acquires[0])
    {
      if releases[i] !in Releases(acquires[0]) {
        assert releases[i] in releases;
        return false;
      }
    }
    return |releases| <= 1;
  }

  lemma AmongMore(h: Hook, seen: seq<LifecycleEvent>, x: LifecycleEvent)
    ensures Among(h, seen + [x], true) == Among(h, seen, true) + if x in h.events && Acquires(x) then {x} else {}
    ensures Among(h, seen + [x], false) == Among(h, seen, false) + if x in h.events && !Acquires(x) then {x} else {}
  {
  }

  lemma OnceEachMore(s: seq<LifecycleEvent>, members: set<LifecycleEvent>, x: LifecycleEvent)
    requires OnceEach(s, members) && x !in members
    ensures OnceEach(s + [x], members + {x})
  {
    assert forall ev :: ev in s + [x] <==> ev in s || ev == x;
  }

  lemma OneAcquire(h: Hook)
    ensures ResourceEventsOk(h) ==> |AcquiresOf(h)| == 1
  {
  }

  lemma OneElement(s: set<LifecycleEvent>, a: LifecycleEvent)
    requires |s| == 1 && a in s
    ensures s == {a}
  {
    assert s == {a} + (s - {a});
  }

  predicate OnceEach(s: seq<LifecycleEvent>, members: set<LifecycleEvent>) {
    (forall i, j :: 0 <= i < j < |s| ==> s[i] != s[j]) && forall ev :: ev in s <==> ev in members
  }

  lemma {:induction false} OnceEachSize(s: seq<LifecycleEvent>, members: set<LifecycleEvent>)
    requires OnceEach(s, members)
    ensures |s| == |members|
  {
    if s == [] {
      assert members == {};
    } else {
      var last := s[|s| - 1];
      var init := s[..|s| - 1];
      assert forall ev :: ev in s <==> ev in init || ev == last;
      OnceEachSize(init, members - {last});
    }
  }

  lemma AllEvents()
    ensures forall ev: LifecycleEvent :: ev in EVENTS
  {
    forall ev: LifecycleEvent
      ensures ev in EVENTS
    {
      match ev
      case CreatePre => assert EVENTS[0] == ev;
      case CreatePost => assert EVENTS[1] == ev;
      case StartPre => assert EVENTS[2] == ev;
      case StartPost => assert EVENTS[3] == ev;
      case StopPre => assert EVENTS[4] == ev;
      case StopPost => assert EVENTS[5] == ev;
      case RemovePre => assert EVENTS[6] == ev;
      case RemovePost => assert EVENTS[7] == ev;
    }
  }

  method ValidateHook(h: Hook) returns (ok: bool)
    ensures ok <==> HookOk(h)
  {
    if !ValidName(h.name) || h.events == map[] {
      return false;
    }
    AllEvents();
    for i := 0 to |EVENTS|
      invariant forall k :: 0 <= k < i && EVENTS[k] in h.events ==> h.events[EVENTS[k]].args != []
    {
      if EVENTS[i] in h.events && h.events[EVENTS[i]].args == [] {
        return false;
      }
    }
    forall ev | ev in h.events
      ensures h.events[ev].args != []
    {
      assert ev in EVENTS;
      var k :| 0 <= k < |EVENTS| && ev == EVENTS[k];
    }
    if h.resource.None? {
      return true;
    }
    if !ValidName(h.resource.value) {
      return false;
    }
    ok := ValidateResourceEvents(h);
  }

  method ValidateLifecycleHooks(hooks: seq<Hook>) returns (ok: bool)
    ensures ok <==> HooksOk(hooks)
  {
    hide HookOk;
    var names, resources: set<string> := {}, {};
    for i := 0 to |hooks|
      invariant HooksOk(hooks[..i])
      invariant names == set k | 0 <= k < i :: hooks[k].name
      invariant resources == set k | 0 <= k < i && hooks[k].resource.Some? :: hooks[k].resource.value
    {
      var h := hooks[i];
      var valid := ValidateHook(h);
      if !valid || h.name in names {
        return false;
      }
      if h.resource.Some? && h.resource.value in resources {
        var k :| 0 <= k < i && hooks[k].resource.Some? && hooks[k].resource.value == h.resource.value;
        assert hooks[k].resource == hooks[i].resource;
        return false;
      }
      names := names + {h.name};
      if h.resource.Some? {
        resources := resources + {h.resource.value};
      }
    }
    assert hooks[..|hooks|] == hooks;
    return true;
  }

  // ---- Forced hooks ---------------------------------------------------------

  /** on_error fail, explicit or by default, passes as continue. */
  function ForcedExec(e: Exec): Exec {
    if Resolved(e.onError) == Fail then e.(onError := Continue) else e
  }

  function ForcedHook(h: Hook): Hook {
    h.(events := map ev | ev in h.events :: ForcedExec(h.events[ev]))
  }

  function ForcedHooks(hooks: seq<Hook>): (r: seq<Hook>)
    ensures |r| == |hooks|
    ensures forall i :: 0 <= i < |hooks| ==>
              r[i].resource == hooks[i].resource && r[i].events.Keys == hooks[i].events.Keys
    ensures forall i, ev :: 0 <= i < |hooks| && ev in r[i].events ==> Resolved(r[i].events[ev].onError) != Fail
  {
    seq(|hooks|, i requires 0 <= i < |hooks| => ForcedHook(hooks[i]))
  }

  /** A forced hook runs the same commands at the same events. What would fail the
      operation passes as continue, and what is set to continue or ignore stays. */
  lemma ForcedMeans(hooks: seq<Hook>, i: nat, ev: LifecycleEvent)
    requires i < |hooks| && ev in hooks[i].events
    ensures var was, now := hooks[i].events[ev], ForcedHooks(hooks)[i].events[ev];
      now == if was.onError == OnErrorUnset || was.onError == Fail then Exec(was.args, Continue) else was
  {
  }
}
