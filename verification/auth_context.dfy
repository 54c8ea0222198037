/**
 * The authentication store of src/lib/auth-context/index.tsx: a snapshot
 * of the signed-in user, a set of change listeners, and a reference count
 * of subscribers. The first subscriber starts the auth runtime (the session
 * lookup and the auth-state subscription), the last one tears it down.
 *
 * Listeners are named by numbers; "calling" a listener is recorded in the
 * log `notified`. The runtimes that have been started are numbered in order,
 * and `runtimeActive[g]` is the `active` flag of runtime `g`. Calls to
 * `scheduleSync("auth")` are counted in `syncRequests`.
 */
module AuthContext {
  import opened Wrappers

  datatype User = User(id: string, email: string)

  datatype AuthSnapshot = AuthSnapshot(user: Option<User>, isLoading: bool)

  /** A `Partial<AuthSnapshot>`: `None` marks a field that is absent from the patch. */
  datatype SnapshotPatch = SnapshotPatch(user: Option<Option<User>>, isLoading: Option<bool>)

  type Listener = nat

  const InitialSnapshot := AuthSnapshot(None, true)

  /** `{...snapshot, ...patch}` */
  function ApplyPatch(s: AuthSnapshot, patch: SnapshotPatch): (r: AuthSnapshot)
    ensures patch.user.None? ==> r.user == s.user
    ensures patch.user.Some? ==> r.user == patch.user.value
    ensures patch.isLoading.None? ==> r.isLoading == s.isLoading
    ensures patch.isLoading.Some? ==> r.isLoading == patch.isLoading.value
  {
    AuthSnapshot(
      if patch.user.Some? then patch.user.value else s.user,
      if patch.isLoading.Some? then patch.isLoading.value else s.isLoading)
  }

  /** The patch an auth event applies: the session's user or null, and loading finished. */
  function EventPatch(user: Option<User>): SnapshotPatch {
    SnapshotPatch(Some(user), Some(false))
  }

  /** Applying the same patch twice is the same as applying it once. */
  lemma ApplyPatchIdempotent(s: AuthSnapshot, patch: SnapshotPatch)
    ensures ApplyPatch(ApplyPatch(s, patch), patch) == ApplyPatch(s, patch)
  {
  }

  predicate Distinct(s: seq<Listener>) {
    forall i, j | 0 <= i < j < |s| :: s[i] != s[j]
  }

  /** `Set.prototype.add`: appends `l` unless it is already present. */
  function AddListener(s: seq<Listener>, l: Listener): (r: seq<Listener>)
    ensures Distinct(s) ==> Distinct(r)
    ensures l in r && forall x :: x in r <==> x in s || x == l
    ensures l in s ==> r == s
  {
    if l in s then s else s + [l]
  }

  /** `Set.prototype.delete`: removes `l` and keeps the others in insertion order. */
  function RemoveListener(s: seq<Listener>, l: Listener): (r: seq<Listener>)
    ensures Distinct(s) ==> Distinct(r)
    ensures forall x :: x in r <==> x in s && x != l
    ensures |r| <= |s|
    decreases |s|
  {
    if s == [] then []
    else if s[0] == l then RemoveListener(s[1..], l)
    else
      assert Distinct(s) ==> s[0] !in s[1..];
      [s[0]] + RemoveListener(s[1..], l)
  }

  /** Adding a listener that was not registered and removing it again restores the registry. */
  lemma {:induction false} RemoveAfterAdd(s: seq<Listener>, l: Listener)
    requires l !in s
    ensures RemoveListener(AddListener(s, l), l) == s
    decreases |s|
  {
    if s != [] {
      assert (s + [l])[1..] == s[1..] + [l];
      RemoveAfterAdd(s[1..], l);
    } else {
      assert RemoveListener([l], l) == RemoveListener([], l);
    }
  }

  class AuthStore {
    var snapshot: AuthSnapshot
    var activeSubscribers: int
    /** `stopAuthRuntime`: the runtime it stops, or null. */
    var stopAuthRuntime: Option<nat>
    var listeners: seq<Listener>
    var notified: seq<Listener>
    var runtimeActive: seq<bool>
    var syncRequests: nat

    /**
     * The runtime runs exactly while there is at least one subscriber, only
     * the current runtime is active, no listener is registered twice, and
     * without subscribers the snapshot is the initial one.
     */
    ghost predicate Valid()
      reads this
    {
      (stopAuthRuntime.Some? <==> activeSubscribers >= 1) &&
      (stopAuthRuntime.Some? ==>
        stopAuthRuntime.value < |runtimeActive| && runtimeActive[stopAuthRuntime.value]) &&
      (forall g | 0 <= g < |runtimeActive| && runtimeActive[g] :: stopAuthRuntime == Some(g)) &&
      Distinct(listeners) &&
      (activeSubscribers <= 0 ==> snapshot == InitialSnapshot)
    }

    constructor()
      ensures Valid()
      ensures snapshot == InitialSnapshot && activeSubscribers == 0 && stopAuthRuntime == None
      ensures listeners == [] && notified == [] && runtimeActive == [] && syncRequests == 0
    {
      snapshot := InitialSnapshot;
      activeSubscribers := 0;
      stopAuthRuntime := None;
      listeners := [];
      notified := [];
      runtimeActive := [];
      syncRequests := 0;
    }

    /** `emitChange`: calls every registered listener once, in insertion order. */
    method EmitChange()
      modifies this
      ensures notified == old(notified) + listeners
      ensures snapshot == old(snapshot) && activeSubscribers == old(activeSubscribers)
      ensures stopAuthRuntime == old(stopAuthRuntime) && listeners == old(listeners)
      ensures runtimeActive == old(runtimeActive) && syncRequests == old(syncRequests)
    {
      for i := 0 to |listeners|
        invariant listeners == old(listeners)
        invariant notified == old(notified) + listeners[..i]
        invariant snapshot == old(snapshot) && activeSubscribers == old(activeSubscribers)
        invariant stopAuthRuntime == old(stopAuthRuntime)
        invariant runtimeActive == old(runtimeActive) && syncRequests == old(syncRequests)
      {
        notified := notified + [listeners[i]];
        assert listeners[..i + 1] == listeners[..i] + [listeners[i]];
      }
      assert listeners[..|listeners|] == listeners;
    }

    /** `updateSnapshot`: merges the patch into the snapshot, then notifies every listener. */
    method UpdateSnapshot(patch: SnapshotPatch)
      modifies this
      ensures snapshot == ApplyPatch(old(snapshot), patch)
      ensures notified == old(notified) + listeners
      ensures activeSubscribers == old(activeSubscribers) && stopAuthRuntime == old(stopAuthRuntime)
      ensures listeners == old(listeners) && runtimeActive == old(runtimeActive) && syncRequests == old(syncRequests)
    {
      snapshot := ApplyPatch(snapshot, patch);
      EmitChange();
    }

    /** `startAuthRuntime`: a new runtime, active until its stop function runs. */
    method StartAuthRuntime() returns (g: nat)
      modifies this
      ensures g == |old(runtimeActive)| && runtimeActive == old(runtimeActive) + [true]
      ensures snapshot == old(snapshot) && activeSubscribers == old(activeSubscribers)
      ensures stopAuthRuntime == old(stopAuthRuntime) && listeners == old(listeners)
      ensures notified == old(notified) && syncRequests == old(syncRequests)
    {
      g := |runtimeActive|;
      runtimeActive := runtimeActive + [true];
    }

    /**
     * `subscribeAuth`: registers the listener and counts the subscriber; the
     * subscriber that brings the count to one starts the runtime.
     */
    method Subscribe(l: Listener)
      requires Valid()
      modifies this
      ensures Valid()
      ensures listeners == AddListener(old(listeners), l)
      ensures activeSubscribers == old(activeSubscribers) + 1
      ensures old(activeSubscribers) == 0 ==>
        runtimeActive == old(runtimeActive) + [true] && stopAuthRuntime == Some(|old(runtimeActive)|)
      ensures old(activeSubscribers) != 0 ==>
        runtimeActive == old(runtimeActive) && stopAuthRuntime == old(stopAuthRuntime)
      ensures snapshot == old(snapshot) && notified == old(notified) && syncRequests == old(syncRequests)
    {
      listeners := AddListener(listeners, l);
      activeSubscribers := activeSubscribers + 1;
      if activeSubscribers == 1 {
        var g := StartAuthRuntime();
        stopAuthRuntime := Some(g);
      }
    }

    /**
     * The function `subscribeAuth` returns: unregisters the listener and
     * uncounts the subscriber; the one that brings the count to zero stops
     * the runtime and resets the snapshot, without notifying anyone.
     */
    method Unsubscribe(l: Listener)
      requires Valid()
      modifies this
      ensures Valid()
      ensures listeners == RemoveListener(old(listeners), l)
      ensures activeSubscribers == old(activeSubscribers) - 1
      ensures activeSubscribers == 0 ==>
        stopAuthRuntime == None && snapshot == InitialSnapshot &&
        |runtimeActive| == |old(runtimeActive)| &&
        forall g | 0 <= g < |runtimeActive| :: !runtimeActive[g]
      ensures activeSubscribers != 0 ==>
        stopAuthRuntime == old(stopAuthRuntime) && runtimeActive == old(runtimeActive) &&
        snapshot == old(snapshot)
      ensures notified == old(notified) && syncRequests == old(syncRequests)
    {
      listeners := RemoveListener(listeners, l);
      activeSubscribers := activeSubscribers - 1;
      if activeSubscribers == 0 {
        if stopAuthRuntime.Some? {
          // `active = false` and `subscription.unsubscribe()`
          runtimeActive := runtimeActive[stopAuthRuntime.value := false];
        }
        stopAuthRuntime := None;
        snapshot := InitialSnapshot;
      }
    }

    /**
     * The session lookup of runtime `g` resolves with `user`: ignored once
     * that runtime was stopped, otherwise it settles the snapshot and asks
     * for a sync when someone is signed in.
     */
    method InitialSessionResolved(g: nat, user: Option<User>)
      requires Valid() && g < |runtimeActive|
      modifies this
      ensures Valid()
      ensures !old(runtimeActive[g]) ==>
        snapshot == old(snapshot) && notified == old(notified) && syncRequests == old(syncRequests)
      ensures old(runtimeActive[g]) ==>
        snapshot == AuthSnapshot(user, false) && notified == old(notified) + listeners &&
        syncRequests == old(syncRequests) + (if user.Some? then 1 else 0)
      ensures activeSubscribers == old(activeSubscribers) && stopAuthRuntime == old(stopAuthRuntime)
      ensures listeners == old(listeners) && runtimeActive == old(runtimeActive)
    {
      if !runtimeActive[g] {
        return;
      }
      UpdateSnapshot(EventPatch(user));
      if user.Some? {
        syncRequests := syncRequests + 1;
      }
    }

    /**
     * An auth-state event delivered to the subscription of the running
     * runtime: the snapshot takes the event's user and stops loading, and a
     * sync is requested when someone is signed in.
     */
    method AuthStateChanged(g: nat, user: Option<User>)
      requires Valid() && g < |runtimeActive| && runtimeActive[g]
      modifies this
      ensures Valid()
      ensures snapshot == AuthSnapshot(user, false) && notified == old(notified) + listeners
      ensures syncRequests == old(syncRequests) + (if user.Some? then 1 else 0)
      ensures activeSubscribers == old(activeSubscribers) && stopAuthRuntime == old(stopAuthRuntime)
      ensures listeners == old(listeners) && runtimeActive == old(runtimeActive)
    {
      UpdateSnapshot(EventPatch(user));
      if user.Some? {
        syncRequests := syncRequests + 1;
      }
    }
  }

  /* ---------------------------------------------------------------- */
  /* getEmailRedirectUrl                                                */
  /* ---------------------------------------------------------------- */

  predicate EndsWithSlash(s: string) {
    |s| > 0 && s[|s| - 1] == '/'
  }

  /** `BASE_URL || "/"`, then a trailing "/" appended when missing. */
  function NormalizeBasePath(baseUrl: string): (p: string)
    ensures EndsWithSlash(p)
    ensures baseUrl == [] ==> p == "/"
    ensures EndsWithSlash(baseUrl) ==> p == baseUrl
    ensures baseUrl != [] && !EndsWithSlash(baseUrl) ==> p == baseUrl + "/"
  {
    var basePath := if baseUrl == [] then "/" else baseUrl;
    if EndsWithSlash(basePath) then basePath else basePath + "/"
  }

  /** A path that already ends with "/" is left as it is, so normalising twice changes nothing. */
  lemma NormalizeBasePathIdempotent(baseUrl: string)
    ensures NormalizeBasePath(NormalizeBasePath(baseUrl)) == NormalizeBasePath(baseUrl)
    ensures EndsWithSlash(baseUrl) ==> NormalizeBasePath(baseUrl) == baseUrl
  {
  }

  /**
   * `getEmailRedirectUrl`: without a window (`origin` absent) there is no
   * redirect; otherwise the origin, the normalised base path and
   * "auth/callback".
   */
  function GetEmailRedirectUrl(origin: Option<string>, baseUrl: string): (r: Option<string>)
    ensures r.None? <==> origin.None?
    ensures r.Some? ==> r.value == origin.value + NormalizeBasePath(baseUrl) + "auth/callback"
    ensures r.Some? && EndsWithSlash(baseUrl) ==> r.value == origin.value + baseUrl + "auth/callback"
    ensures r.Some? && baseUrl != [] && !EndsWithSlash(baseUrl) ==> r.value == origin.value + baseUrl + "/auth/callback"
    ensures r.Some? && baseUrl == [] ==> r.value == origin.value + "/auth/callback"
  {
    match origin
    case None => None
    case Some(o) => Some(o + NormalizeBasePath(baseUrl) + "auth/callback")
  }
}
