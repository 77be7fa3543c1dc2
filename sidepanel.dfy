/**
 * The side-panel controller: a pool of embedded frames (one per provider,
 * created lazily, never destroyed, exactly one shown), the remembered
 * per-provider sessions, the active provider, and the zoom applied to every
 * frame. `chrome.storage.local` is modelled by two ghost fields holding what
 * was last written under each key.
 */
module SidePanel {
  import opened Wrappers
  import opened Registry
  import opened Sessions
  import opened Zoom

  /** An embedded page of the pool. */
  class Frame {
    /** `dataset.provider`. */
    const provider: string
    var src: string
    /** False when `style.display` is 'none'. */
    var visible: bool
    /** The zoom, in hundredths, that the last `applyZoom` gave this frame; None while it has none. */
    var scale: Option<int>

    constructor (provider: string, src: string, visible: bool)
      ensures this.provider == provider && this.src == src && this.visible == visible
      ensures scale == None
    {
      this.provider := provider;
      this.src := src;
      this.visible := visible;
      scale := None;
    }
  }

  /** No button after the `i`-th, among the first `k`, names the same provider. */
  ghost predicate LastBefore(buttons: seq<(string, string)>, i: int, k: int)
    requires 0 <= i < k <= |buttons|
  {
    forall j :: i < j < k ==> buttons[j].0 != buttons[i].0
  }

  /**
   * `DEFAULT_URLS` as filled from the buttons' `data-provider` and `data-url`
   * attributes: every named provider gets the URL of the last
   * button naming it, and no other key is present.
   */
  method BuildDefaults(buttons: seq<(string, string)>) returns (defaults: map<string, string>)
    ensures forall p :: p in defaults <==> exists i :: 0 <= i < |buttons| && buttons[i].0 == p
    ensures forall i :: 0 <= i < |buttons| && LastBefore(buttons, i, |buttons|) ==>
              buttons[i].0 in defaults && defaults[buttons[i].0] == buttons[i].1
  {
    defaults := map[];
    for k := 0 to |buttons|
      invariant forall p :: p in defaults <==> exists i :: 0 <= i < k && buttons[i].0 == p
      invariant forall i :: 0 <= i < k && LastBefore(buttons, i, k) ==>
                  buttons[i].0 in defaults && defaults[buttons[i].0] == buttons[i].1
    {
      defaults := defaults[buttons[k].0 := buttons[k].1];
      forall i | 0 <= i < k + 1 && LastBefore(buttons, i, k + 1)
        ensures defaults[buttons[i].0] == buttons[i].1
      {
        if i < k {
          assert LastBefore(buttons, i, k);
        }
      }
    }
  }

  /** `sessionState.sessions[p] || DEFAULT_URLS[p]`: the URL a new frame for `p` loads, None when both are falsy. */
  function FrameSource(sessions: map<string, string>, defaults: map<string, string>, p: string): (r: Option<string>)
    ensures r.Some? ==> r.value != ""
    ensures r.Some? ==> r == Lookup(sessions, p) || r == Lookup(defaults, p)
    ensures p in sessions && sessions[p] != "" ==> r == Some(sessions[p])
    ensures (p !in sessions || sessions[p] == "") && p in defaults && defaults[p] != "" ==> r == Some(defaults[p])
    ensures r.None? <==> (p !in sessions || sessions[p] == "") && (p !in defaults || defaults[p] == "")
  {
    if p in sessions && sessions[p] != "" then Some(sessions[p])
    else if p in defaults && defaults[p] != "" then Some(defaults[p])
    else None
  }

  /** A `SESSION_URL_UPDATE` message (or any other runtime message): `url` is "" when absent. */
  datatype Message = Message(action: string, url: string)

  class Panel {
    const defaults: map<string, string>
    var sessions: map<string, string>
    var lastProvider: string
    var iframes: map<string, Frame>
    /** `currentZoom`, in hundredths. */
    var currentZoom: int
    /** The record last written under `omniState_v2`. */
    ghost var storedState: Option<StoredState>
    /** The level last written under `omniZoomLevel`. */
    ghost var storedZoom: Option<real>

    /** Each pooled frame belongs to the provider it is registered under, and the zoom is in bounds. */
    ghost predicate Valid()
      reads this, iframes.Values
    {
      (forall p :: p in iframes ==> iframes[p].provider == p) &&
      MinHundredths <= currentZoom <= MaxHundredths
    }

    /** The frame of `p`, if pooled, is shown, and every other pooled frame is hidden. */
    ghost predicate OnlyVisible(p: string)
      reads this, iframes.Values
    {
      (p in iframes ==> iframes[p].visible) &&
      forall q :: q in iframes && q != p ==> !iframes[q].visible
    }

    /** The state `saveState` would write now. */
    ghost function State(): SessionState
      reads this
    {
      SessionState(sessions, lastProvider)
    }

    /**
     * Start-up (the panel script's top level): build the default URLs, register the
     * page's initial frame as Gemini's, merge the stored record over the
     * defaults, re-apply a stored zoom other than 1, then show
     * `lastProvider || 'Gemini'`.
     */
    constructor (buttons: seq<(string, string)>, initialSrc: string,
                 saved: Option<StoredState>, savedZoom: Option<real>)
      ensures Valid()
      ensures forall p :: p in defaults <==> exists i :: 0 <= i < |buttons| && buttons[i].0 == p
      ensures forall i :: 0 <= i < |buttons| && LastBefore(buttons, i, |buttons|) ==>
                buttons[i].0 in defaults && defaults[buttons[i].0] == buttons[i].1
      ensures State() == Merge(InitialState, saved)
      ensures storedState == saved
      ensures currentZoom == RestoreZoom(savedZoom)
      ensures storedZoom == if ReappliesZoom(savedZoom) then Some(currentZoom as real / 100.0) else savedZoom
      ensures OnlyVisible(InitialProvider(lastProvider))
      ensures "Gemini" in iframes && iframes["Gemini"].src == initialSrc
      ensures iframes["Gemini"].scale == if ReappliesZoom(savedZoom) then Some(currentZoom) else None
      ensures iframes.Keys <= {"Gemini", InitialProvider(lastProvider)}
      ensures InitialProvider(lastProvider) in iframes <==>
                InitialProvider(lastProvider) == "Gemini" || FrameSource(sessions, defaults, InitialProvider(lastProvider)).Some?
      ensures InitialProvider(lastProvider) != "Gemini" && InitialProvider(lastProvider) in iframes ==>
                iframes[InitialProvider(lastProvider)].src == FrameSource(sessions, defaults, InitialProvider(lastProvider)).value &&
                iframes[InitialProvider(lastProvider)].scale == None
    {
      var d := BuildDefaults(buttons);
      defaults := d;
      var state := Merge(InitialState, saved);
      sessions := state.sessions;
      lastProvider := state.lastProvider;
      var initialFrame := new Frame("Gemini", initialSrc, true);
      iframes := map["Gemini" := initialFrame];
      currentZoom := 100;
      storedState := saved;
      storedZoom := savedZoom;
      new;
      StartUp(savedZoom);
    }

    /**
     * The end of start-up, with only the page's initial frame pooled:
     * re-apply a stored zoom other than 1 (to that frame alone), then show
     * `lastProvider || 'Gemini'`.
     */
    method StartUp(savedZoom: Option<real>)
      requires Valid() && currentZoom == 100
      requires iframes.Keys == {"Gemini"} && iframes["Gemini"].scale == None
      modifies this`currentZoom, this`storedZoom, this`iframes, iframes.Values
      ensures Valid()
      ensures currentZoom == RestoreZoom(savedZoom)
      ensures storedZoom == if ReappliesZoom(savedZoom) then Some(currentZoom as real / 100.0) else old(storedZoom)
      ensures OnlyVisible(InitialProvider(lastProvider))
      ensures "Gemini" in iframes && iframes["Gemini"] == old(iframes["Gemini"])
      ensures iframes["Gemini"].src == old(iframes["Gemini"].src)
      ensures iframes["Gemini"].scale == if ReappliesZoom(savedZoom) then Some(currentZoom) else None
      ensures iframes.Keys <= {"Gemini", InitialProvider(lastProvider)}
      ensures InitialProvider(lastProvider) in iframes <==>
                InitialProvider(lastProvider) == "Gemini" || FrameSource(sessions, defaults, InitialProvider(lastProvider)).Some?
      ensures InitialProvider(lastProvider) != "Gemini" && InitialProvider(lastProvider) in iframes ==>
                iframes[InitialProvider(lastProvider)].src == FrameSource(sessions, defaults, InitialProvider(lastProvider)).value &&
                iframes[InitialProvider(lastProvider)].scale == None
    {
      ghost var initialFrame := iframes["Gemini"];
      if ReappliesZoom(savedZoom) {
        ApplyZoom(savedZoom.value);
        assert initialFrame.scale == Some(currentZoom);
      }
      assert currentZoom == RestoreZoom(savedZoom);
      ShowProvider(InitialProvider(lastProvider));
      assert iframes["Gemini"] == initialFrame;
    }

    /** `saveState`: write the whole session state. */
    method SaveState()
      requires Valid()
      modifies this`storedState
      ensures Valid()
      ensures storedState == Some(Snapshot(State()))
    {
      storedState := Some(Snapshot(State()));
    }

    /**
     * `getOrCreateIframe`: the pooled frame of `p` if there is one; otherwise a
     * new hidden, unscaled frame loading `FrameSource(p)`, added to the pool;
     * null, with the pool unchanged, when there is no URL to load.
     */
    method GetOrCreateIframe(p: string) returns (f: Frame?)
      requires Valid()
      modifies this`iframes
      ensures Valid()
      ensures p in old(iframes) ==> f == old(iframes)[p] && iframes == old(iframes)
      ensures p !in old(iframes) && FrameSource(sessions, defaults, p).None? ==>
                f == null && iframes == old(iframes)
      ensures p !in old(iframes) && FrameSource(sessions, defaults, p).Some? ==>
                f != null && fresh(f) && iframes == old(iframes)[p := f] &&
                f.src == FrameSource(sessions, defaults, p).value && !f.visible && f.scale == None
    {
      if p in iframes {
        return iframes[p];
      }
      var url := FrameSource(sessions, defaults, p);
      if url.None? {
        return null;
      }
      f := new Frame(p, url.value, false);
      iframes := iframes[p := f];
    }

    /** The first step of `showProvider`: set every pooled frame's display to 'none'. */
    method HideAll()
      requires Valid()
      modifies iframes.Values
      ensures Valid()
      ensures forall q :: q in iframes ==>
                !iframes[q].visible &&
                iframes[q].src == old(iframes[q].src) && iframes[q].scale == old(iframes[q].scale)
    {
      var pending := iframes.Keys;
      while pending != {}
        invariant pending <= iframes.Keys
        invariant forall q :: q in iframes && q !in pending ==> !iframes[q].visible
        invariant forall q :: q in iframes ==>
                    iframes[q].src == old(iframes[q].src) && iframes[q].scale == old(iframes[q].scale)
        decreases pending
      {
        var q :| q in pending;
        iframes[q].visible := false;
        pending := pending - {q};
      }
    }

    /**
     * `showProvider`: hide every pooled frame, then show the frame of `p`,
     * creating it first when needed. No frame leaves the pool and no frame's
     * source or scale changes.
     */
    method ShowProvider(p: string)
      requires Valid()
      modifies this`iframes, iframes.Values
      ensures Valid() && OnlyVisible(p)
      ensures forall q :: q in old(iframes) ==>
                q in iframes && iframes[q] == old(iframes[q]) &&
                iframes[q].src == old(iframes[q].src) && iframes[q].scale == old(iframes[q].scale)
      ensures iframes.Keys <= old(iframes).Keys + {p}
      ensures p in iframes <==> p in old(iframes) || FrameSource(sessions, defaults, p).Some?
      ensures p in iframes && p !in old(iframes) ==>
                fresh(iframes[p]) && iframes[p].src == FrameSource(sessions, defaults, p).value &&
                iframes[p].scale == None
    {
      HideAll();
      var target := GetOrCreateIframe(p);
      if target != null {
        target.visible := true;
      }
    }

    /**
     * `applyZoom`: set the zoom to `level` clamped and rounded to hundredths,
     * give every pooled frame that scale, and store the level.
     */
    method ApplyZoom(level: real)
      requires Valid()
      modifies this`currentZoom, this`storedZoom, iframes.Values
      ensures Valid()
      ensures currentZoom == ZoomHundredths(level)
      ensures storedZoom == Some(currentZoom as real / 100.0)
      ensures forall q :: q in iframes ==>
                iframes[q].scale == Some(currentZoom) &&
                iframes[q].src == old(iframes[q].src) && iframes[q].visible == old(iframes[q].visible)
    {
      currentZoom := ZoomHundredths(level);
      var pending := iframes.Keys;
      while pending != {}
        invariant currentZoom == ZoomHundredths(level)
        invariant pending <= iframes.Keys
        invariant forall q :: q in iframes && q !in pending ==> iframes[q].scale == Some(currentZoom)
        invariant forall q :: q in iframes ==>
                    iframes[q].src == old(iframes[q].src) && iframes[q].visible == old(iframes[q].visible)
        decreases pending
      {
        var q :| q in pending;
        iframes[q].scale := Some(currentZoom);
        pending := pending - {q};
      }
      storedZoom := Some(currentZoom as real / 100.0);
    }

    /** The zoom-in button and Ctrl/Cmd with '=' or '+': ten hundredths more, up to the upper bound. */
    method ZoomIn()
      requires Valid()
      modifies this`currentZoom, this`storedZoom, iframes.Values
      ensures Valid()
      ensures currentZoom == if old(currentZoom) + 10 <= MaxHundredths then old(currentZoom) + 10 else MaxHundredths
      ensures storedZoom == Some(currentZoom as real / 100.0)
      ensures forall q :: q in iframes ==> iframes[q].scale == Some(currentZoom)
      ensures forall q :: q in iframes ==>
                iframes[q].src == old(iframes[q].src) && iframes[q].visible == old(iframes[q].visible)
    {
      ZoomInStep(currentZoom);
      ApplyZoom(currentZoom as real / 100.0 + ZoomStep);
    }

    /** The zoom-out button and Ctrl/Cmd with '-': ten hundredths less, down to the lower bound. */
    method ZoomOut()
      requires Valid()
      modifies this`currentZoom, this`storedZoom, iframes.Values
      ensures Valid()
      ensures currentZoom == if old(currentZoom) - 10 >= MinHundredths then old(currentZoom) - 10 else MinHundredths
      ensures storedZoom == Some(currentZoom as real / 100.0)
      ensures forall q :: q in iframes ==> iframes[q].scale == Some(currentZoom)
      ensures forall q :: q in iframes ==>
                iframes[q].src == old(iframes[q].src) && iframes[q].visible == old(iframes[q].visible)
    {
      ZoomOutStep(currentZoom);
      ApplyZoom(currentZoom as real / 100.0 - ZoomStep);
    }

    /** Ctrl/Cmd with '0': back to 1.0. */
    method ZoomReset()
      requires Valid()
      modifies this`currentZoom, this`storedZoom, iframes.Values
      ensures Valid()
      ensures currentZoom == 100
      ensures storedZoom == Some(1.0)
      ensures forall q :: q in iframes ==> iframes[q].scale == Some(100)
      ensures forall q :: q in iframes ==>
                iframes[q].src == old(iframes[q].src) && iframes[q].visible == old(iframes[q].visible)
    {
      ZoomKeepsHundredths(100);
      ApplyZoom(1.0);
    }

    /** The `keydown` listener: only Ctrl or Cmd with '=', '+', '-' or '0' changes the zoom. */
    method OnKeyDown(ctrlKey: bool, metaKey: bool, key: string)
      requires Valid()
      modifies this`currentZoom, this`storedZoom, iframes.Values
      ensures Valid()
      ensures (ctrlKey || metaKey) && (key == "=" || key == "+") ==>
                currentZoom == if old(currentZoom) + 10 <= MaxHundredths then old(currentZoom) + 10 else MaxHundredths
      ensures (ctrlKey || metaKey) && key == "-" ==>
                currentZoom == if old(currentZoom) - 10 >= MinHundredths then old(currentZoom) - 10 else MinHundredths
      ensures (ctrlKey || metaKey) && key == "0" ==> currentZoom == 100
      ensures (ctrlKey || metaKey) && key in {"=", "+", "-", "0"} ==>
                storedZoom == Some(currentZoom as real / 100.0) &&
                forall q :: q in iframes ==> iframes[q].scale == Some(currentZoom)
      ensures forall q :: q in iframes ==>
                iframes[q].src == old(iframes[q].src) && iframes[q].visible == old(iframes[q].visible)
      ensures !((ctrlKey || metaKey) && key in {"=", "+", "-", "0"}) ==>
                currentZoom == old(currentZoom) && storedZoom == old(storedZoom) &&
                forall q :: q in iframes ==> iframes[q].scale == old(iframes[q].scale)
    {
      if ctrlKey || metaKey {
        if key == "=" || key == "+" {
          ZoomIn();
        } else if key == "-" {
          ZoomOut();
        } else if key == "0" {
          ZoomReset();
        }
      }
    }

    /** `updateProvider`: make `p` the active provider, write the state, then show `p`. */
    method UpdateProvider(p: string)
      requires Valid()
      modifies this`lastProvider, this`storedState, this`iframes, iframes.Values
      ensures Valid() && OnlyVisible(p)
      ensures lastProvider == p
      ensures storedState == Some(Snapshot(SessionState(sessions, p)))
      ensures forall q :: q in old(iframes) ==>
                q in iframes && iframes[q] == old(iframes[q]) &&
                iframes[q].src == old(iframes[q].src) && iframes[q].scale == old(iframes[q].scale)
      ensures iframes.Keys <= old(iframes).Keys + {p}
      ensures p in iframes <==> p in old(iframes) || FrameSource(sessions, defaults, p).Some?
      ensures p in iframes && p !in old(iframes) ==>
                fresh(iframes[p]) && iframes[p].src == FrameSource(sessions, defaults, p).value &&
                iframes[p].scale == None
    {
      lastProvider := p;
      SaveState();
      ShowProvider(p);
    }

    /** A provider button click: ignored when `p` is already `lastProvider`, else `updateProvider(p)`. */
    method OnProviderClick(p: string)
      requires Valid()
      modifies this`lastProvider, this`storedState, this`iframes, iframes.Values
      ensures Valid()
      ensures p == old(lastProvider) ==>
                lastProvider == old(lastProvider) && storedState == old(storedState) && iframes == old(iframes) &&
                forall q :: q in iframes ==> iframes[q].visible == old(iframes[q].visible)
      ensures p != old(lastProvider) ==>
                lastProvider == p && storedState == Some(Snapshot(SessionState(sessions, p))) && OnlyVisible(p)
      ensures p != old(lastProvider) ==>
                iframes.Keys <= old(iframes).Keys + {p} &&
                (p in iframes <==> p in old(iframes) || FrameSource(sessions, defaults, p).Some?)
      ensures p != old(lastProvider) && p in iframes && p !in old(iframes) ==>
                fresh(iframes[p]) && iframes[p].src == FrameSource(sessions, defaults, p).value &&
                iframes[p].scale == None
      ensures forall q :: q in old(iframes) ==>
                q in iframes && iframes[q] == old(iframes[q]) &&
                iframes[q].src == old(iframes[q].src) && iframes[q].scale == old(iframes[q].scale)
    {
      if p == lastProvider {
        return;
      }
      UpdateProvider(p);
    }

    /**
     * `handleSessionUpdate`: resolve the URL's hostname (None when the URL
     * does not parse) to a provider, apply the session rule to that provider's
     * entry, and write the state only when that provider is the active one.
     */
    method HandleSessionUpdate(url: string, hostname: Option<string>)
      requires Valid()
      modifies this`sessions, this`storedState
      ensures Valid()
      ensures sessions == SessionUpdate(old(sessions), defaults, url, hostname)
      ensures storedState == if UpdatedProvider(hostname) == Some(lastProvider)
                             then Some(Snapshot(State())) else old(storedState)
    {
      var provider := None;
      if hostname.Some? {
        provider := ResolveProvider(hostname.value);
      }
      if provider.Some? {
        var p := provider.value;
        var defaultUrl := Lookup(defaults, p);
        if KeepsSession(url, defaultUrl) {
          sessions := sessions[p := url];
        } else {
          sessions := sessions - {p};
        }
        if p == lastProvider {
          SaveState();
        }
      }
    }

    /** The runtime message listener: only a `SESSION_URL_UPDATE` with a non-empty URL is handled. */
    method OnMessage(message: Message, hostname: Option<string>)
      requires Valid()
      modifies this`sessions, this`storedState
      ensures Valid()
      ensures message.action == "SESSION_URL_UPDATE" && message.url != "" ==>
                sessions == SessionUpdate(old(sessions), defaults, message.url, hostname)
      ensures message.action == "SESSION_URL_UPDATE" && message.url != "" ==>
                storedState == if UpdatedProvider(hostname) == Some(lastProvider)
                               then Some(Snapshot(State())) else old(storedState)
      ensures !(message.action == "SESSION_URL_UPDATE" && message.url != "") ==>
                sessions == old(sessions) && storedState == old(storedState)
    {
      if message.action == "SESSION_URL_UPDATE" && message.url != "" {
        HandleSessionUpdate(message.url, hostname);
      }
    }
  }
}
