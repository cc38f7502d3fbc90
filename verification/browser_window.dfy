/** The browser window's navigation engine: address resolution (`formatUrl`), the
    history stack with its cursor (`history`, `historyIndex`), the displayed address
    (`currentUrl`), the text in the address bar (`url`) and the loading flag.
    Each handler is a step function on `NavState`; the `Browser` class holds the same
    fields and its methods perform those steps in place. The 500 ms loading timer is
    the explicit event `LoadTimerFires`. The window's drag handlers are the
    `DragControl` module's; its layout is `Geometry.Layout` with `BrowserSize`. */
module BrowserWindow {
  import opened Optional
  import opened JsString
  import opened Geometry
  import UriComponent

  /** Fixed size of the windowed browser. */
  const BrowserSize: Size := Size(800, 600)

  const SearchPrefix: string := "https://www.google.com/search?q="

  /** The search-or-address test on the trimmed input: no `.` at all, or a literal space. */
  predicate IsSearchQuery(t: string)
  {
    '.' !in t || ' ' in t
  }

  predicate HasScheme(t: string)
  {
    "http://" <= t || "https://" <= t
  }

  /** `formatUrl`: the address a raw input resolves to. It always carries an http or
      https scheme (and so is never empty). */
  function FormatUrl(input: string): (r: string)
    ensures HasScheme(r) && |r| >= 7
  {
    var t := Trim(input);
    if IsSearchQuery(t) then
      var r := SearchPrefix + UriComponent.Encode(t);
      assert r[..8] == SearchPrefix[..8] == "https://";
      r
    else if !HasScheme(t) then "https://" + t
    else t
  }

  /** A search query becomes the search URL with the trimmed input percent-encoded,
      and decoding the query part gives the trimmed input back. */
  lemma FormatUrlSearch(input: string)
    requires IsSearchQuery(Trim(input))
    ensures FormatUrl(input) == SearchPrefix + UriComponent.Encode(Trim(input))
    ensures UriComponent.Decode(FormatUrl(input)[|SearchPrefix|..]) == Some(Trim(input))
  {
    UriComponent.DecodeEncode(Trim(input));
    assert FormatUrl(input)[|SearchPrefix|..] == UriComponent.Encode(Trim(input));
  }

  /** A direct address (a `.` and no space) is returned trimmed and unchanged when it
      already names http or https, and with `https://` in front otherwise. */
  lemma FormatUrlDirect(input: string)
    requires !IsSearchQuery(Trim(input))
    ensures HasScheme(Trim(input)) ==> FormatUrl(input) == Trim(input)
    ensures !HasScheme(Trim(input)) ==> FormatUrl(input) == "https://" + Trim(input)
  {
  }

  /** The shape of a resolved address: a scheme, a `.`, no space, and no whitespace
      at either end. */
  predicate IsResolved(e: string)
  {
    HasScheme(e) && '.' in e && ' ' !in e && IsTrimmed(e)
  }

  /** Whatever the input, `formatUrl` produces a resolved address. */
  lemma FormatUrlResolved(input: string)
    ensures IsResolved(FormatUrl(input))
  {
    var t := Trim(input);
    TrimIsTrimmed(input);
    if IsSearchQuery(t) {
      SearchUrlResolved(UriComponent.Encode(t));
    } else if !HasScheme(t) {
      PrefixedResolved(t);
    }
  }

  lemma SearchUrlResolved(e: string)
    requires forall k :: 0 <= k < |e| ==> UriComponent.IsUriChar(e[k])
    ensures IsResolved(SearchPrefix + e)
  {
    var r := SearchPrefix + e;
    assert r[|r| - 1] != ' ' && !IsWhitespace(r[|r| - 1]) by {
      if e != [] {
        assert r[|r| - 1] == e[|e| - 1];
      }
    }
    forall k | 0 <= k < |r| ensures r[k] != ' ' {
      if k >= |SearchPrefix| {
        assert r[k] == e[k - |SearchPrefix|];
      }
    }
    assert r[18] == '.';
    assert "https://" <= r;
  }

  lemma PrefixedResolved(t: string)
    requires IsTrimmed(t) && '.' in t && ' ' !in t
    ensures IsResolved("https://" + t)
  {
    var r := "https://" + t;
    assert r[|r| - 1] == t[|t| - 1];
    forall k | 0 <= k < |r| ensures r[k] != ' ' {
      if k >= 8 {
        assert r[k] == t[k - 8];
      }
    }
    var i :| 0 <= i < |t| && t[i] == '.';
    assert r[i + 8] == '.';
    assert "https://" <= r;
  }

  /** The resolved addresses are exactly the inputs `formatUrl` returns unchanged. */
  lemma FormatUrlFixedPoints(e: string)
    ensures FormatUrl(e) == e <==> IsResolved(e)
  {
    FormatUrlResolved(e);
    if IsResolved(e) {
      TrimOfTrimmed(e);
    }
  }

  /** Resolving an address that was already resolved gives it back. */
  lemma FormatUrlIdempotent(input: string)
    ensures FormatUrl(FormatUrl(input)) == FormatUrl(input)
  {
    FormatUrlResolved(input);
    FormatUrlFixedPoints(FormatUrl(input));
  }

  /** The browser is 800 x 600 at its position when windowed, and spans the viewport
      above the taskbar band when fullscreen. */
  lemma BrowserLayout(position: Point, viewport: Size)
    ensures Layout(BrowserSize, false, position, viewport) == Rect(position.x, position.y, 800, 600)
    ensures Layout(BrowserSize, true, position, viewport) == Rect(0, 0, viewport.width, viewport.height - 48)
  {
  }

  datatype NavState = NavState(
    url: string,
    currentUrl: string,
    isLoading: bool,
    history: seq<string>,
    historyIndex: int)

  /** The cursor stays in range, is -1 exactly when the history is empty, and the
      displayed address is the entry under the cursor ("" when there is none). Every
      entry is a resolved address. */
  predicate Inv(st: NavState)
  {
    && -1 <= st.historyIndex < |st.history|
    && (st.historyIndex == -1 <==> st.history == [])
    && st.currentUrl == (if st.historyIndex >= 0 then st.history[st.historyIndex] else "")
    && AllResolved(st.history)
  }

  /** Every entry of `h` is a resolved address (defined entry by entry from the end,
      so that the solver unfolds it only on request). */
  predicate AllResolved(h: seq<string>)
  {
    h == [] || (AllResolved(h[..|h| - 1]) && IsResolved(h[|h| - 1]))
  }

  lemma {:induction false} AllResolvedAt(h: seq<string>, k: int)
    requires AllResolved(h) && 0 <= k < |h|
    ensures IsResolved(h[k])
  {
    if k < |h| - 1 {
      AllResolvedAt(h[..|h| - 1], k);
    }
  }

  lemma {:induction false} AllResolvedPrefix(h: seq<string>, n: nat)
    requires AllResolved(h) && n <= |h|
    ensures AllResolved(h[..n])
  {
    if n < |h| {
      assert h[..|h| - 1][..n] == h[..n];
      AllResolvedPrefix(h[..|h| - 1], n);
    } else {
      assert h[..n] == h;
    }
  }


  /** The state a newly mounted browser window starts in. */
  function Initial(): NavState
  {
    NavState("", "", false, [], -1)
  }

  /** `navigate(newUrl)`: entries after the cursor are discarded, the resolved address
      is appended and shown, the raw input goes into the address bar, loading starts. */
  function Navigated(st: NavState, newUrl: string): NavState
    requires Inv(st)
  {
    var formatted := FormatUrl(newUrl);
    var newHistory := st.history[..st.historyIndex + 1] + [formatted];
    NavState(newUrl, formatted, true, newHistory, |newHistory| - 1)
  }

  /** `handleSubmit`: navigates to the address bar's text unless it is blank. */
  function Submitted(st: NavState): NavState
    requires Inv(st)
  {
    if Trim(st.url) != "" then Navigated(st, st.url) else st
  }

  /** `goBack`. */
  function WentBack(st: NavState): NavState
    requires Inv(st)
  {
    if st.historyIndex > 0 then
      st.(historyIndex := st.historyIndex - 1,
          currentUrl := st.history[st.historyIndex - 1],
          url := st.history[st.historyIndex - 1])
    else st
  }

  /** `goForward`. */
  function WentForward(st: NavState): NavState
    requires Inv(st)
  {
    if st.historyIndex < |st.history| - 1 then
      st.(historyIndex := st.historyIndex + 1,
          currentUrl := st.history[st.historyIndex + 1],
          url := st.history[st.historyIndex + 1])
    else st
  }

  /** `refresh`: restarts loading when something is displayed. */
  function Refreshed(st: NavState): NavState
  {
    if st.currentUrl != "" then st.(isLoading := true) else st
  }

  /** The 500 ms timer of a navigation or refresh fires: loading ends, whether or not
      a later navigation has started its own timer since. */
  function TimerFired(st: NavState): NavState
  {
    st.(isLoading := false)
  }

  /** Typing into the address bar. */
  function Typed(st: NavState, text: string): NavState
  {
    st.(url := text)
  }

  /** The address `openInCloakedTab` would open, or nothing when none is displayed. */
  function CloakedTarget(st: NavState): Option<string>
  {
    if st.currentUrl == "" then None else Some(st.currentUrl)
  }

  predicate BackDisabled(st: NavState) { st.historyIndex <= 0 }
  predicate ForwardDisabled(st: NavState) { st.historyIndex >= |st.history| - 1 }
  predicate CloakedDisabled(st: NavState) { st.currentUrl == "" }

  /** `navigate` keeps the history invariant. */
  lemma NavigatedInv(st: NavState, newUrl: string)
    requires Inv(st)
    ensures Inv(Navigated(st, newUrl))
  {
    var f := FormatUrl(newUrl);
    FormatUrlResolved(newUrl);
    var kept := st.history[..st.historyIndex + 1];
    AllResolvedPrefix(st.history, st.historyIndex + 1);
    assert (kept + [f])[..|kept + [f]| - 1] == kept;
  }

  /** `handleSubmit` keeps the history invariant. */
  lemma SubmittedInv(st: NavState)
    requires Inv(st)
    ensures Inv(Submitted(st))
  {
    NavigatedInv(st, st.url);
  }

  /** `goBack` and `goForward` keep the history invariant. */
  lemma BackForwardInv(st: NavState)
    requires Inv(st)
    ensures Inv(WentBack(st)) && Inv(WentForward(st))
  {
  }

  /** The remaining handlers keep the history invariant, and the initial state has it. */
  lemma HandlersPreserveInv(st: NavState, text: string)
    requires Inv(st)
    ensures Inv(Initial())
    ensures Inv(Refreshed(st)) && Inv(TimerFired(st)) && Inv(Typed(st, text))
  {
  }

  /** After `navigate` the new entry is last and shown, nothing is ahead of the cursor,
      going back is possible exactly when there was an entry before, and every entry
      up to the old cursor is kept. */
  lemma NavigatedEffect(st: NavState, newUrl: string)
    requires Inv(st)
    ensures var n := Navigated(st, newUrl);
      && n.history == st.history[..st.historyIndex + 1] + [FormatUrl(newUrl)]
      && n.historyIndex == st.historyIndex + 1
      && n.currentUrl == FormatUrl(newUrl) && n.url == newUrl && n.isLoading
      && ForwardDisabled(n)
      && (BackDisabled(n) <==> st.history == [])
  {
  }

  /** Back then forward, and forward then back, return to the same entry; the
      address bar then shows that entry. */
  lemma BackForwardRoundTrip(st: NavState)
    requires Inv(st)
    ensures !BackDisabled(st) ==> WentForward(WentBack(st)) == st.(url := st.currentUrl)
    ensures !ForwardDisabled(st) ==> WentBack(WentForward(st)) == st.(url := st.currentUrl)
  {
  }

  /** Back and forward move the cursor by one at most and touch neither the history
      nor the loading flag; a disabled button's handler changes nothing. */
  lemma BackForwardFrame(st: NavState)
    requires Inv(st)
    ensures WentBack(st).history == st.history && WentBack(st).isLoading == st.isLoading
    ensures WentForward(st).history == st.history && WentForward(st).isLoading == st.isLoading
    ensures BackDisabled(st) <==> WentBack(st) == st
    ensures ForwardDisabled(st) <==> WentForward(st) == st
    ensures !BackDisabled(st) ==> WentBack(st).historyIndex == st.historyIndex - 1
    ensures !ForwardDisabled(st) ==> WentForward(st).historyIndex == st.historyIndex + 1
  {
  }

  /** `navigate(a)`, `navigate(b)`, `goBack()` shows the address `a` resolved to,
      and `b`'s entry is still ahead of the cursor. */
  lemma NavigateTwiceThenBack(st: NavState, a: string, b: string)
    requires Inv(st)
    ensures Inv(Navigated(st, a)) && Inv(Navigated(Navigated(st, a), b))
    ensures var s2 := Navigated(Navigated(st, a), b);
      && WentBack(s2).currentUrl == FormatUrl(a)
      && WentForward(WentBack(s2)).currentUrl == FormatUrl(b)
  {
    NavigatedInv(st, a);
    var s1 := Navigated(st, a);
    NavigatedEffect(st, a);
    NavigatedInv(s1, b);
    var s2 := Navigated(s1, b);
    NavigatedEffect(s1, b);
    assert s2.history[s2.historyIndex - 1] == s1.history[s1.historyIndex] == FormatUrl(a);
    assert s2.history[s2.historyIndex] == FormatUrl(b);
  }

  /** Navigating after going back discards every entry that was ahead of the cursor:
      the history is the entries up to the new cursor plus the new address, and there
      is nothing left to go forward to. */
  lemma NavigateAfterBackDiscardsForward(st: NavState, c: string)
    requires Inv(st) && !BackDisabled(st)
    ensures Inv(WentBack(st))
    ensures var n := Navigated(WentBack(st), c);
      && n.history == st.history[..st.historyIndex] + [FormatUrl(c)]
      && |n.history| == st.historyIndex + 1
      && ForwardDisabled(n)
  {
    BackForwardInv(st);
    var b := WentBack(st);
    assert b.history == st.history && b.historyIndex == st.historyIndex - 1;
    NavigatedEffect(b, c);
  }

  /** With a single entry, `goBack` does nothing. */
  lemma BackWithOneEntry(a: string)
    ensures Inv(Navigated(Initial(), a))
    ensures WentBack(Navigated(Initial(), a)) == Navigated(Initial(), a)
  {
    NavigatedInv(Initial(), a);
  }

  /** Refresh and the cloaked-tab button leave history, cursor, displayed address and
      address bar alone; refresh starts loading exactly when an address is displayed,
      which is exactly when the history is non-empty; a blank address bar makes
      submit do nothing. */
  lemma GuardedHandlers(st: NavState)
    requires Inv(st)
    ensures Refreshed(st).(isLoading := st.isLoading) == st
    ensures Refreshed(st).isLoading <==> st.isLoading || st.history != []
    ensures CloakedDisabled(st) <==> st.history == []
    ensures CloakedTarget(st).None? <==> CloakedDisabled(st)
    ensures CloakedTarget(st).Some? ==> CloakedTarget(st).value == st.history[st.historyIndex]
    ensures Trim(st.url) == "" ==> Submitted(st) == st
    ensures (forall k :: 0 <= k < |st.url| ==> IsWhitespace(st.url[k])) ==> Submitted(st) == st
  {
    TrimEmptyIffBlank(st.url);
    if st.historyIndex >= 0 {
      AllResolvedAt(st.history, st.historyIndex);
    }
  }

  /** After going back, submitting the address bar as it stands re-navigates to the
      displayed entry itself (the entry is a fixed point of `formatUrl`). */
  lemma SubmitAfterBack(st: NavState)
    requires Inv(st) && !BackDisabled(st)
    ensures Inv(WentBack(st))
    ensures Submitted(WentBack(st)).currentUrl == st.history[st.historyIndex - 1]
    ensures Submitted(WentBack(st)).history == st.history[..st.historyIndex] + [st.history[st.historyIndex - 1]]
  {
    BackForwardInv(st);
    var b := WentBack(st);
    assert b.url == st.history[st.historyIndex - 1] && b.history == st.history;
    AllResolvedAt(st.history, st.historyIndex - 1);
    SubmitResolved(b);
    NavigatedEffect(b, b.url);
  }

  /** Submitting a resolved address navigates to that address itself. */
  lemma SubmitResolved(st: NavState)
    requires Inv(st) && IsResolved(st.url)
    ensures Submitted(st) == Navigated(st, st.url)
    ensures FormatUrl(st.url) == st.url
  {
    FormatUrlFixedPoints(st.url);
    TrimOfTrimmed(st.url);
  }

  /** A word of unreserved characters without a `.` is searched for verbatim. */
  lemma FormatPlainWord(w: string)
    requires forall k :: 0 <= k < |w| ==> UriComponent.IsUnreserved(w[k]) && !IsWhitespace(w[k])
    requires '.' !in w
    ensures FormatUrl(w) == SearchPrefix + w
  {
    TrimNoWhitespace(w);
    UriComponent.EncodeIdentityIff(w);
  }

  lemma FormatOpenai()
    ensures FormatUrl("openai") == "https://www.google.com/search?q=openai"
  {
    FormatPlainWord("openai");
  }

  lemma FormatExample()
    ensures FormatUrl("example.com") == "https://example.com"
  {
    TrimNoWhitespace("example.com");
    assert "example.com"[7] == '.';
    assert !IsSearchQuery("example.com");
    assert !HasScheme("example.com");
  }

  /** From a fresh window, "openai" is a search and "example.com" a direct address;
      after both, back shows the search again and forward returns to the address. */
  lemma Scenario()
    ensures Inv(Navigated(Initial(), "openai"))
    ensures Inv(Navigated(Navigated(Initial(), "openai"), "example.com"))
    ensures var s2 := Navigated(Navigated(Initial(), "openai"), "example.com");
      && WentBack(s2).currentUrl == "https://www.google.com/search?q=openai"
      && WentForward(WentBack(s2)).currentUrl == "https://example.com"
  {
    NavigateTwiceThenBack(Initial(), "openai", "example.com");
    FormatOpenai();
    FormatExample();
  }

  /** The mounted browser component: its five state cells, updated in place by the
      handlers. `pendingTimers` counts the 500 ms loading timers started and not yet
      fired, so that "loading" is seen to end once they have all fired. */
  class Browser {
    var url: string
    var currentUrl: string
    var isLoading: bool
    var history: seq<string>
    var historyIndex: int
    ghost var pendingTimers: nat

    function State(): NavState
      reads this
    {
      NavState(url, currentUrl, isLoading, history, historyIndex)
    }

    /** The history invariant, and a pending timer for as long as loading is shown. */
    ghost predicate Valid()
      reads this
    {
      Inv(State()) && (isLoading ==> pendingTimers > 0)
    }

    constructor ()
      ensures Valid() && State() == Initial() && pendingTimers == 0
    {
      url := "";
      currentUrl := "";
      isLoading := false;
      history := [];
      historyIndex := -1;
      pendingTimers := 0;
    }

    method Navigate(newUrl: string)
      requires Valid()
      modifies this
      ensures Valid()
      ensures State() == Navigated(old(State()), newUrl)
      ensures pendingTimers == old(pendingTimers) + 1
    {
      ghost var st := State();
      var formattedUrl := FormatUrl(newUrl);
      currentUrl := formattedUrl;
      url := newUrl;
      isLoading := true;
      var newHistory := history[..historyIndex + 1] + [formattedUrl];
      history := newHistory;
      historyIndex := |newHistory| - 1;
      pendingTimers := pendingTimers + 1;
      assert Inv(State()) && State() == Navigated(st, newUrl) by {
        assert State() == Navigated(st, newUrl);
        NavigatedInv(st, newUrl);
      }
    }

    method HandleSubmit()
      requires Valid()
      modifies this
      ensures Valid()
      ensures State() == Submitted(old(State()))
      ensures pendingTimers == old(pendingTimers) + (if Trim(old(url)) != "" then 1 else 0)
    {
      if Trim(url) != "" {
        Navigate(url);
      }
    }

    method GoBack()
      requires Valid()
      modifies this
      ensures Valid()
      ensures State() == WentBack(old(State())) && pendingTimers == old(pendingTimers)
    {
      BackForwardInv(State());
      if historyIndex > 0 {
        historyIndex := historyIndex - 1;
        currentUrl := history[historyIndex];
        url := history[historyIndex];
      }
    }

    method GoForward()
      requires Valid()
      modifies this
      ensures Valid()
      ensures State() == WentForward(old(State())) && pendingTimers == old(pendingTimers)
    {
      BackForwardInv(State());
      if historyIndex < |history| - 1 {
        historyIndex := historyIndex + 1;
        currentUrl := history[historyIndex];
        url := history[historyIndex];
      }
    }

    method Refresh()
      requires Valid()
      modifies this
      ensures Valid()
      ensures State() == Refreshed(old(State()))
      ensures pendingTimers == old(pendingTimers) + (if old(currentUrl) != "" then 1 else 0)
    {
      if currentUrl != "" {
        isLoading := true;
        pendingTimers := pendingTimers + 1;
      }
    }

    /** One of the pending loading timers fires. */
    method LoadTimerFires()
      requires Valid() && pendingTimers > 0
      modifies this
      ensures Valid()
      ensures State() == TimerFired(old(State())) && pendingTimers == old(pendingTimers) - 1
    {
      isLoading := false;
      pendingTimers := pendingTimers - 1;
    }

    /** Typing into the address bar. */
    method Type(text: string)
      requires Valid()
      modifies this
      ensures Valid()
      ensures State() == Typed(old(State()), text) && pendingTimers == old(pendingTimers)
    {
      url := text;
    }

    /** The guard of `openInCloakedTab`: the address it would open, nothing when no
        address is displayed (that is, when the history is empty); what it opens is
        always the resolved entry under the cursor. */
    method OpenInCloakedTab() returns (target: Option<string>)
      requires Valid()
      ensures target.None? <==> history == []
      ensures target.Some? ==> 0 <= historyIndex < |history| && target.value == history[historyIndex]
      ensures target.Some? ==> IsResolved(target.value)
    {
      if historyIndex >= 0 {
        AllResolvedAt(history, historyIndex);
      }
      if currentUrl == "" {
        return None;
      }
      target := Some(currentUrl);
    }
  }
}
