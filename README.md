# OmniPanel side-panel controller in Dafny

OmniPanel is a browser extension that hosts several AI chat services (Gemini,
ChatGPT, Claude, DeepSeek, Grok) in one side panel. This project models the
panel controller of `sidepanel.js`:

- **Provider registry** (`registry.dfy`): the fixed `DOMAIN_TO_PROVIDER` table,
  scanned in declaration order; the first entry whose domain is a substring of
  the hostname names the provider. Matching is by substring, as the code does,
  so a hostname such as `dropbox.com` contains `x.com` and is attributed to
  Grok.
- **Session rule** (`sessions.dfy`): a reported URL becomes the provider's
  remembered session unless it equals the provider's default URL or contains
  `accounts.google.com`, `/signin`, `/login` or `/auth`, in which case the
  entry is deleted. The stored record is merged over the in-memory defaults at
  start-up.
- **Zoom** (`zoom.dfy`): a level is clamped to [0.3, 1.5] and rounded to
  hundredths. Levels are exact reals. The current zoom is an integer number of
  hundredths (30..150).
- **Panel** (`sidepanel.dfy`): a class holding `sessions`, `lastProvider`, the
  frame pool `iframes` and `currentZoom`. `chrome.storage.local` is modelled
  by two ghost fields, one per storage key, holding what was last written.
  Frames are objects whose `visible`, `src` and `scale` fields the methods
  update in place. Frames are created lazily and never removed. After
  `ShowProvider`, the target frame, if it can be obtained, is the only visible
  one.

The default URLs come from the buttons' HTML data attributes and are a
constructor parameter (a list of provider/URL pairs). A URL's hostname, as
`new URL(url)` would give it, is an `Option<string>` input: None stands for a
URL that does not parse.

The model keeps these behaviours of the code:
- A frame created after the last `applyZoom` carries no scale: `showProvider`
  does not re-apply the zoom to it. At start-up, a stored zoom is applied
  before a non-Gemini initial provider's frame exists, so that frame is
  unscaled (stated in the constructor's contract).
- The stored record is merged with an object spread. Keys are not validated
  against the registry.
- The zoom is stored under its own key (`omniZoomLevel`), not inside the
  session record.
- A falsy stored `lastProvider` stays falsy in the state, although Gemini is
  the provider shown.
- A session update for a provider other than `lastProvider` changes the
  in-memory map only. It reaches storage with the next write of the whole
  state.
- A saved Gemini session is never loaded. The HTML frame is registered under
  "Gemini" before any lookup (sidepanel.js:33-35), and `getOrCreateIframe`
  returns a pooled frame without consulting the sessions (sidepanel.js:38-39).
  Gemini's session entry is still recorded and stored.

## Model

| member | source | states |
|---|---|---|
| Registry.Includes | sidepanel.js:178 | `includes` holds exactly when the needle occurs at some index of the hostname |
| Registry.FirstMatch | sidepanel.js:177-182 | the index found is a matching entry with no matching entry before it; none is found only when no entry matches |
| Registry.Resolve | sidepanel.js:177-183 | a resolved provider is the name of a table entry that matches with no matching entry before it; nothing is resolved only when no domain of the table occurs in the hostname |
| Registry.ResolveIsFirstMatch | sidepanel.js:9-17 | a hostname resolves to p iff the first matching table entry names p, and resolves to nothing iff no domain of the table occurs in it |
| Registry.ResolveProvider | sidepanel.js:176-183 | the loop with early exit returns the same provider as the first-match specification, so resolution is deterministic |
| Sessions.IsAuthUrl | sidepanel.js:187-190 | a URL is an auth URL exactly when one of the four markers occurs in it |
| Sessions.KeepsSession | sidepanel.js:186-190 | a URL is kept as the session exactly when it differs from the default URL and contains no auth marker |
| Sessions.RecordNavigation | sidepanel.js:185-194 | p's entry is present afterwards iff the URL differs from p's default and contains no auth marker, and then it holds the URL; every other provider's entry is unchanged |
| Sessions.SessionUpdate | sidepanel.js:175-194 | only the resolved provider's entry can change; it is present afterwards iff the session rule keeps the URL, and then holds the URL |
| Sessions.SessionUpdateIdempotent | sidepanel.js:191-193 | delivering the same notification twice leaves the same sessions map as delivering it once |
| Sessions.SessionUpdateIsolated | sidepanel.js:184-200 | an update never changes the entry of a provider it does not resolve to; an unparseable URL or unresolved hostname changes nothing |
| Sessions.RecordNavigationsCommute | sidepanel.js:185-194 | recording navigations for two different providers gives the same map in either order |
| Sessions.SessionUpdatesCommute | sidepanel.js:184-194 | updates resolving to two different providers give the same map in either order |
| Sessions.Merge | sidepanel.js:100-102 | with no stored record the state is unchanged; otherwise each field present in the record replaces the state's field and each absent field is kept |
| Sessions.Snapshot | sidepanel.js:203-205 | the written record holds both fields, and merging it over the initial state gives back the state written |
| Sessions.RestoreAfterSave | sidepanel.js:99-102 | merging what `saveState` wrote over any defaults gives back exactly the saved state |
| Sessions.InitialProvider | sidepanel.js:108 | the provider shown first is `lastProvider` when it is non-empty and Gemini otherwise, so it is never empty |
| Zoom.Clamp | sidepanel.js:83 | the clamped level lies in [0.3, 1.5], equals the level when it is in range, and equals the nearer bound otherwise |
| Zoom.Round | sidepanel.js:83 | `Math.round` gives the integer within half of x, rounding halves up |
| Zoom.ZoomHundredths | sidepanel.js:83 | the zoom is within [30, 150] hundredths, is the nearest hundredth to the clamped level, and equals the nearest bound for a level outside the range |
| Zoom.ZoomKeepsHundredths | sidepanel.js:83 | an in-range level on a hundredth is kept unchanged, so applying a zoom twice gives the same value |
| Zoom.ZoomMonotone | sidepanel.js:83 | a higher requested level never gives a lower zoom |
| Zoom.ZoomInStep | sidepanel.js:148-151 | zooming in from z gives z + 10 hundredths, capped at 150 |
| Zoom.ZoomOutStep | sidepanel.js:152-155 | zooming out from z gives z - 10 hundredths, floored at 30 |
| Zoom.RestoreZoom | sidepanel.js:103-106 | a stored level that is present, non-zero and not 1 is re-applied through clamping and rounding; otherwise the zoom stays at 100 hundredths; the result is always in range |
| Zoom.RestoreZoomRoundTrip | sidepanel.js:103-106 | restoring a stored in-range zoom at start-up gives back that zoom |
| SidePanel.Frame.constructor | sidepanel.js:45-51 | a new frame carries its provider, its URL and its visibility, and has no scale |
| SidePanel.BuildDefaults | sidepanel.js:20-22 | the default URL map has exactly the buttons' providers as keys, each mapped to the URL of the last button naming it |
| SidePanel.FrameSource | sidepanel.js:42-43 | a new frame's URL is the non-empty session if there is one, else the non-empty default; there is none exactly when both are missing or empty |
| SidePanel.Panel.constructor | sidepanel.js:24-110 | start-up builds the default URLs from the buttons, registers the initial frame as Gemini's with its URL, merges the stored record, restores the zoom, and shows `lastProvider` or Gemini as the only visible frame; a non-Gemini initial provider's frame exists iff it has a URL, loads that URL and is unscaled |
| SidePanel.Panel.StartUp | sidepanel.js:103-110 | the stored zoom is re-applied to the Gemini frame when it is present and not 1, then the initial provider's frame is shown as the only visible one |
| SidePanel.Panel.SaveState | sidepanel.js:203-205 | storage then holds the whole current session state |
| SidePanel.Panel.GetOrCreateIframe | sidepanel.js:37-56 | an existing frame is returned unchanged; with no URL, null is returned and the pool is unchanged; otherwise exactly one new hidden, unscaled frame loading that URL is added |
| SidePanel.Panel.HideAll | sidepanel.js:59-62 | every pooled frame is hidden afterwards, and no frame's source or scale changes |
| SidePanel.Panel.ShowProvider | sidepanel.js:58-68 | afterwards p's frame, if obtainable, is the only visible frame; no frame is removed or changes source or scale; at most p's frame is added |
| SidePanel.Panel.ApplyZoom | sidepanel.js:82-92 | the zoom becomes the clamped and rounded level, every pooled frame gets that scale, and storage holds the same level |
| SidePanel.Panel.ZoomIn | sidepanel.js:148-151 | the zoom rises by ten hundredths up to 150; every frame gets that scale and storage holds that level; no frame's source or visibility changes |
| SidePanel.Panel.ZoomOut | sidepanel.js:152-155 | the zoom falls by ten hundredths down to 30; every frame gets that scale and storage holds that level; no frame's source or visibility changes |
| SidePanel.Panel.ZoomReset | sidepanel.js:140-143 | the zoom returns to 100 hundredths on every frame and in storage; no frame's source or visibility changes |
| SidePanel.Panel.OnKeyDown | sidepanel.js:130-146 | Ctrl/Cmd with '=' or '+' zooms in, with '-' zooms out, with '0' resets, and then every frame and storage hold the new zoom; any other key leaves the zoom, storage and scales unchanged; no key changes a frame's source or visibility |
| SidePanel.Panel.UpdateProvider | sidepanel.js:166-171 | `lastProvider` becomes p, storage holds the state with p, and p's frame, if obtainable, is the only visible one; existing frames keep their source and scale; p's frame exists afterwards iff it existed or has a URL, and a new one is fresh, loads that URL and is unscaled |
| SidePanel.Panel.OnProviderClick | sidepanel.js:116-120 | clicking the current `lastProvider` changes nothing; any other provider is switched to as by `updateProvider`, with the same guarantees on the pool and on a newly created frame |
| SidePanel.Panel.HandleSessionUpdate | sidepanel.js:173-201 | sessions become the session rule applied to the resolved provider; storage is written only when that provider is `lastProvider` |
| SidePanel.Panel.OnMessage | sidepanel.js:123-127 | only a `SESSION_URL_UPDATE` with a non-empty URL reaches the session update, which then writes storage only when the resolved provider is `lastProvider`; other messages change nothing |

## Left out

- `antidetect.js`, `injector.js`, `permission.js`, `background.js`: DOM heuristics, text injection, the microphone permission prompt and message broadcasting are browser I/O and are not part of this model.
- Storage is synchronous last-writer-wins snapshots. The asynchronous `chrome.storage` calls and the removal of legacy keys at start-up (line 97) are not modelled.
- Races between hosted pages reporting URLs concurrently are not modelled; notifications are handled one at a time.
- `showToast`, the Claude voice-mode notice (lines 70-72) and the zoom percentage toasts are user notices with timers and are not modelled.
- `setActiveButton` (lines 160-164) only toggles a CSS class on the buttons and is not modelled.
- The CSS width, height and transform strings of `applyZoom` (lines 86-89) are reduced to a per-frame scale in hundredths.
- A new frame's `className`, `allow` and `frameborder` attributes and its position in the page are not modelled.
- Zoom levels are exact reals. Binary floating-point rounding (for example `0.9 + 0.1`) and NaN levels are not modelled.
- URL parsing is an input: the model takes the hostname, or None for a URL that does not parse.
- A missing `data-url` or `lastProvider` is modelled as the empty string. A stored record whose `sessions` field is present but null or not an object is not modelled.
- The initial HTML frame is taken to be visible before start-up shows the initial provider; its CSS is not modelled.
