/**
 * The session rule of the side panel: which navigated-to URL becomes a
 * provider's remembered session, which clears it, and how the persisted
 * record is merged over the in-memory defaults at start-up.
 */
module Sessions {
  import opened Wrappers
  import opened Registry

  /** The substrings that mark a sign-in page or an identity-provider redirect. */
  const AuthMarkers: seq<string> := ["accounts.google.com", "/signin", "/login", "/auth"]

  /** The URL is a sign-in page or an identity-provider redirect (the four substrings `handleSessionUpdate` tests). */
  predicate IsAuthUrl(url: string): (b: bool)
    ensures b <==> exists k :: 0 <= k < |AuthMarkers| && Includes(url, AuthMarkers[k])
  {
    assert AuthMarkers[0] == "accounts.google.com" && AuthMarkers[1] == "/signin";
    assert AuthMarkers[2] == "/login" && AuthMarkers[3] == "/auth";
    Includes(url, "accounts.google.com") || Includes(url, "/signin") ||
    Includes(url, "/login") || Includes(url, "/auth")
  }

  /** The URL differs from the provider's default URL (which may be missing) and is not an auth page. */
  predicate KeepsSession(url: string, defaultUrl: Option<string>): (b: bool)
    ensures b <==> defaultUrl != Some(url) && forall k :: 0 <= k < |AuthMarkers| ==> !Includes(url, AuthMarkers[k])
  {
    Some(url) != defaultUrl && !IsAuthUrl(url)
  }

  /**
   * The update of `sessionState.sessions` for resolved provider `p`: store `url`
   * when it is worth keeping, delete the entry otherwise. Only `p`'s entry moves.
   */
  function RecordNavigation(sessions: map<string, string>, defaults: map<string, string>,
                            p: string, url: string): (r: map<string, string>)
    ensures p in r <==> KeepsSession(url, Lookup(defaults, p))
    ensures p in r ==> r[p] == url
    ensures forall q :: q != p ==> Lookup(r, q) == Lookup(sessions, q)
  {
    if KeepsSession(url, Lookup(defaults, p)) then sessions[p := url] else sessions - {p}
  }

  /** The whole effect of one `SESSION_URL_UPDATE` on the sessions map; `hostname` is None when the URL does not parse. */
  function SessionUpdate(sessions: map<string, string>, defaults: map<string, string>,
                         url: string, hostname: Option<string>): (r: map<string, string>)
    ensures forall q :: UpdatedProvider(hostname) != Some(q) ==> Lookup(r, q) == Lookup(sessions, q)
    ensures UpdatedProvider(hostname).Some? ==>
              var p := UpdatedProvider(hostname).value;
              (p in r <==> KeepsSession(url, Lookup(defaults, p))) && (p in r ==> r[p] == url)
  {
    if hostname.None? then sessions
    else match Resolve(hostname.value)
      case None => sessions
      case Some(p) => RecordNavigation(sessions, defaults, p, url)
  }

  /** The provider a notification is attributed to, if its URL parses and its hostname resolves. */
  function UpdatedProvider(hostname: Option<string>): Option<string>
  {
    if hostname.None? then None else Resolve(hostname.value)
  }

  /** Replaying a notification leaves the sessions map as the first delivery left it. */
  lemma SessionUpdateIdempotent(sessions: map<string, string>, defaults: map<string, string>,
                                url: string, hostname: Option<string>)
    ensures var once := SessionUpdate(sessions, defaults, url, hostname);
            SessionUpdate(once, defaults, url, hostname) == once
  {
  }

  /**
   * A notification touches only its own provider's entry; one whose URL does
   * not parse or whose hostname matches no provider touches nothing.
   */
  lemma SessionUpdateIsolated(sessions: map<string, string>, defaults: map<string, string>,
                              url: string, hostname: Option<string>, q: string)
    requires UpdatedProvider(hostname) != Some(q)
    ensures Lookup(SessionUpdate(sessions, defaults, url, hostname), q) == Lookup(sessions, q)
    ensures UpdatedProvider(hostname).None? ==> SessionUpdate(sessions, defaults, url, hostname) == sessions
  {
  }

  /** Recording navigations of two different providers gives the same map in either order. */
  lemma RecordNavigationsCommute(sessions: map<string, string>, defaults: map<string, string>,
                                 p1: string, url1: string, p2: string, url2: string)
    requires p1 != p2
    ensures RecordNavigation(RecordNavigation(sessions, defaults, p1, url1), defaults, p2, url2) ==
            RecordNavigation(RecordNavigation(sessions, defaults, p2, url2), defaults, p1, url1)
  {
    var keep1 := KeepsSession(url1, Lookup(defaults, p1));
    var keep2 := KeepsSession(url2, Lookup(defaults, p2));
    if keep1 && keep2 {
      assert sessions[p1 := url1][p2 := url2] == sessions[p2 := url2][p1 := url1];
    } else if keep1 {
      assert sessions[p1 := url1] - {p2} == (sessions - {p2})[p1 := url1];
    } else if keep2 {
      assert (sessions - {p1})[p2 := url2] == sessions[p2 := url2] - {p1};
    } else {
      assert sessions - {p1} - {p2} == sessions - {p2} - {p1};
    }
  }

  /** Notifications for two different providers commute: arrival order cannot cross-contaminate. */
  lemma SessionUpdatesCommute(sessions: map<string, string>, defaults: map<string, string>,
                              url1: string, host1: Option<string>, url2: string, host2: Option<string>)
    requires UpdatedProvider(host1).Some? && UpdatedProvider(host2).Some?
    requires UpdatedProvider(host1) != UpdatedProvider(host2)
    ensures SessionUpdate(SessionUpdate(sessions, defaults, url1, host1), defaults, url2, host2) ==
            SessionUpdate(SessionUpdate(sessions, defaults, url2, host2), defaults, url1, host1)
  {
    RecordNavigationsCommute(sessions, defaults, UpdatedProvider(host1).value, url1,
                             UpdatedProvider(host2).value, url2);
  }

  /** The in-memory `sessionState`. */
  datatype SessionState = SessionState(sessions: map<string, string>, lastProvider: string)

  /**
   * The record read back from storage under `omniState_v2`: a field the record
   * lacks is None. A falsy `lastProvider` (null, undefined, "") is modelled as "".
   */
  datatype StoredState = StoredState(sessions: Option<map<string, string>>, lastProvider: Option<string>)

  /** The state before anything is loaded: the initial `sessionState`. */
  const InitialState: SessionState := SessionState(map[], "Gemini")

  /** `{ ...state, ...saved }` when a record was read, `state` otherwise, as start-up loads the stored record. */
  function Merge(state: SessionState, saved: Option<StoredState>): (r: SessionState)
    ensures saved.None? ==> r == state
    ensures saved.Some? && saved.value.sessions.Some? ==> r.sessions == saved.value.sessions.value
    ensures saved.Some? && saved.value.sessions.None? ==> r.sessions == state.sessions
    ensures saved.Some? && saved.value.lastProvider.Some? ==> r.lastProvider == saved.value.lastProvider.value
    ensures saved.Some? && saved.value.lastProvider.None? ==> r.lastProvider == state.lastProvider
  {
    match saved
    case None => state
    case Some(rec) =>
      SessionState(
        if rec.sessions.Some? then rec.sessions.value else state.sessions,
        if rec.lastProvider.Some? then rec.lastProvider.value else state.lastProvider)
  }

  /** What `saveState` writes: the whole state. */
  function Snapshot(state: SessionState): (r: StoredState)
    ensures r.sessions.Some? && r.lastProvider.Some?
    ensures Merge(InitialState, Some(r)) == state
  {
    StoredState(Some(state.sessions), Some(state.lastProvider))
  }

  /** Storage round trip: loading what `saveState` wrote restores that state, whatever the defaults. */
  lemma RestoreAfterSave(state: SessionState, base: SessionState)
    ensures Merge(base, Some(Snapshot(state))) == state
  {
  }

  /** The provider shown at start-up: `lastProvider || 'Gemini'`. */
  function InitialProvider(lastProvider: string): (r: string)
    ensures r != ""
    ensures lastProvider != "" ==> r == lastProvider
    ensures lastProvider == "" ==> r == "Gemini"
  {
    if lastProvider == "" then "Gemini" else lastProvider
  }
}
