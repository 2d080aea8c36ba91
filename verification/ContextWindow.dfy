/** The context window the agent settles on and the back-off when it spills out of GPU memory
    (agent/ollama_code/core.py, agent/ollama_code/ollama.py). */
module ContextWindow {
  import opened Numbers
  import opened Options

  const MINIMUM_CONTEXT_WINDOW := 1024

  /** The window a model is really running in, 0 when that is not known yet. */
  function EffectiveContextLength(loaded: int, trained: int, configured: int): (window: int)
    ensures window >= 0 && (window == 0 <==> configured <= 0 && loaded <= 0)
    ensures trained > 0 ==> window <= trained
    ensures configured > 0 ==> window <= configured
  {
    if configured > 0 then (if trained > 0 then Min(configured, trained) else configured)
    else if loaded <= 0 then 0
    else if trained > 0 then Min(loaded, trained) else loaded
  }

  /** The window to request, or 0 to leave the server in charge: never less than what is loaded, and more
      only within what the model was trained for and the machine will pay for. */
  function PinnedContextLength(trained: int, cap: int, loaded: int): (window: int)
    ensures window >= 0 && window >= loaded
    ensures window > 0 && window > loaded ==> window <= trained && window <= cap
  {
    if trained <= 0 || cap <= 0 then Max(loaded, 0) else Max(Min(trained, cap), Max(loaded, 0))
  }

  datatype Provider = Ollama | Remote | ChatGpt

  datatype Source = Configured | Pinned | Measured | Reported | Remembered | Published | Unknown

  /** What the server says about the resident model; zeros when it says nothing. */
  datatype Resident = Resident(contextLength: nat, size: nat, sizeVram: nat)

  /** What a hosted endpoint reports, and what its vendor documents. */
  datatype Endpoint = Endpoint(reported: int, ceiling: int)

  /** `configured` and the caps are 0 or at least the minimum window. */
  datatype Config = Config(
    configured: nat, generalCap: nat, published: nat, windowCaps: map<string, nat>, windows: map<string, nat>)

  datatype Settled = Settled(limit: int, source: Source, requested: int)

  datatype Agent = Agent(
    provider: Provider, model: string, host: string, config: Config,
    window: Settled, limitFor: string, resident: Resident)

  const NOTHING := Settled(0, Unknown, 0)

  function Key(a: Agent): string { a.host + "|" + a.model }

  function RememberedWindow(a: Agent): nat
  {
    if Key(a) in a.config.windows then a.config.windows[Key(a)] else 0
  }

  /** A per-model cap was measured and wins over the resident runner; the general cap is a preference. */
  function MeasuredCap(a: Agent): nat
  {
    if Key(a) in a.config.windowCaps then a.config.windowCaps[Key(a)] else 0
  }

  function RememberWindow(a: Agent, window: int): Agent
  {
    if a.model == "" || window <= 0 then a
    else a.(config := a.config.(windows := a.config.windows[Key(a) := window]))
  }

  function RememberCap(a: Agent, cap: nat): Agent
  {
    if a.model == "" || cap == 0 then a
    else a.(config := a.config.(windowCaps := a.config.windowCaps[Key(a) := cap]))
  }

  /** The window of a local model, where it came from, and what is requested for it. */
  function OllamaLimit(a: Agent, loaded: nat, trained: int): Settled
  {
    if a.config.configured > 0 then
      var window := EffectiveContextLength(0, trained, a.config.configured);
      Settled(window, Configured, window)
    else
      var measured := MeasuredCap(a) > 0;
      var cap := if measured then MeasuredCap(a) else a.config.generalCap;
      var pin := PinnedContextLength(trained, cap, if measured then 0 else loaded);
      if pin >= MINIMUM_CONTEXT_WINDOW then
        var window := EffectiveContextLength(loaded, trained, pin);
        Settled(window, if loaded > 0 && pin == loaded then Measured else Pinned, window)
      else if loaded > 0 then Settled(EffectiveContextLength(loaded, trained, 0), Measured, 0)
      else Settled(RememberedWindow(a), Remembered, 0)
  }

  function RemoteLimit(a: Agent, endpoint: Endpoint): Settled
  {
    var window := EffectiveContextLength(endpoint.reported, endpoint.ceiling, a.config.configured);
    if window > 0 then Settled(window, if a.config.configured > 0 then Configured else Reported, 0)
    else if RememberedWindow(a) > 0 then Settled(RememberedWindow(a), Remembered, 0)
    else Settled(a.config.published, Published, 0)
  }

  /** A window once known for a model is never downgraded to unknown. */
  function Settle(a: Agent, found: Settled): Agent
  {
    var known := if a.model != a.limitFor then NOTHING else a.window;
    a.(limitFor := a.model, window := if found.limit > 0 then found else if known.limit <= 0 then NOTHING else known)
  }

  /** `refresh_context_limit`, with what the servers answer. */
  function Refresh(a: Agent, resident: Resident, trained: int, endpoint: Endpoint): Agent
  {
    match a.provider
    case ChatGpt => a.(window := NOTHING)
    case Remote =>
      if a.model == "" then a
      else
        var b := RememberWindow(a, endpoint.reported);
        Settle(b, RemoteLimit(b, endpoint))
    case Ollama =>
      if a.model == "" then a
      else
        var b := RememberWindow(a, resident.contextLength).(resident := resident);
        Settle(b, OllamaLimit(b, resident.contextLength, trained))
  }

  /** A window below the minimum is not usable. */
  function Usable(window: nat): nat { if window >= MINIMUM_CONTEXT_WINDOW then window else 0 }

  /** A window the user asks for is refused when it is too small; 0 clears it, none leaves it alone. */
  predicate Refused(requested: Option<nat>) { requested.Some? && 0 < requested.value < MINIMUM_CONTEXT_WINDOW }

  function Configure(config: Config, requested: Option<nat>): Config
  {
    if requested.Some? then config.(configured := requested.value) else config
  }

  /** The vendor's figure: a new one, or none when it described a model left behind with its host. */
  function Publish(config: Config, leftBehind: bool, published: Option<nat>): Config
  {
    if published.Some? then config.(published := Usable(published.value))
    else if leftBehind then config.(published := 0) else config
  }

  /** The pinned window pushed the model out of GPU memory and can still be halved. */
  predicate Spills(a: Agent)
  {
    && a.window.requested > 0 && a.window.source != Configured
    && a.resident.size > 0 && 0 < a.resident.sizeVram < a.resident.size
    && Reduced(a) < a.window.requested
  }

  function Reduced(a: Agent): int { Max(a.window.requested / 2, MINIMUM_CONTEXT_WINDOW) }

  /** `check_context_spill`: records the smaller cap and settles again. */
  function BackOff(a: Agent, resident: Resident, trained: int, endpoint: Endpoint): Agent
  {
    if Spills(a) then Refresh(RememberCap(a, Reduced(a)), resident, trained, endpoint) else a
  }

  // ----- Which figure wins -----

  /** What is kept under the names of a host and a model. */
  function Kept(figures: map<string, nat>, a: Agent): nat
  {
    var key := a.host + "|" + a.model;
    if key in figures then figures[key] else 0
  }

  lemma {:induction false} CutAtBar(h: string, m: string, g: string, n: string)
    requires h + "|" + m == g + "|" + n && '|' !in h && '|' !in g
    ensures h == g && m == n
  {
    var s := h + "|" + m;
    assert s[|h|] == '|' && s[|g|] == '|';
    assert s[..|h|] == h && s[..|g|] == g && s[|h| + 1..] == m && s[|g| + 1..] == n;
  }

  /** Figures of different models, or of one model on different hosts, are kept apart: no host has a bar in its
      name. */
  lemma FiguresAreKeptApart(a: Agent, b: Agent, window: int, cap: nat)
    requires '|' !in a.host && '|' !in b.host && (a.host != b.host || a.model != b.model)
    requires a.config == b.config
    ensures Kept(RememberWindow(a, window).config.windows, b) == Kept(a.config.windows, b)
    ensures Kept(RememberCap(a, cap).config.windowCaps, b) == Kept(a.config.windowCaps, b)
    ensures RememberWindow(a, window).config.windowCaps == a.config.windowCaps
    ensures RememberCap(a, cap).config.windows == a.config.windows
  {
    if Key(a) == Key(b) { CutAtBar(a.host, a.model, b.host, b.model); }
  }

  /** A hosted model: the window the user set, else the one the endpoint reports, both within its ceiling; else
      the one it once reported; else the one its vendor documents. Nothing is requested. */
  lemma HostedFigures(a: Agent, endpoint: Endpoint)
    ensures var configured, reported, ceiling := a.config.configured, endpoint.reported, endpoint.ceiling;
            RemoteLimit(a, endpoint) ==
            if configured >= 1 then Settled(if 1 <= ceiling < configured then ceiling else configured, Configured, 0)
            else if reported >= 1 then Settled(if 1 <= ceiling < reported then ceiling else reported, Reported, 0)
            else if Kept(a.config.windows, a) >= 1 then Settled(Kept(a.config.windows, a), Remembered, 0)
            else Settled(a.config.published, Published, 0)
  {
  }

  /** A local model: the window the user set, within the trained one; else what the machine will pay for, within
      the trained one, or the loaded window if that is larger and no cap was measured; else the loaded one, or the
      one seen before, with nothing requested. */
  lemma LocalFigures(a: Agent, loaded: nat, trained: int)
    ensures var configured, measured := a.config.configured, Kept(a.config.windowCaps, a);
            var cap, held := if measured >= 1 then measured else a.config.generalCap, if measured >= 1 then 0 else loaded;
            var room := if trained >= 1 && cap >= 1 then (if trained < cap then trained else cap) else 0;
            var pin := if room < held then held else room;
            OllamaLimit(a, loaded, trained) ==
            if configured >= 1 then
              var window := if 1 <= trained < configured then trained else configured;
              Settled(window, Configured, window)
            else if pin >= 1024 then
              var window := if 1 <= trained < pin then trained else pin;
              Settled(window, if loaded == pin then Measured else Pinned, window)
            else if loaded >= 1 then Settled(if 1 <= trained < loaded then trained else loaded, Measured, 0)
            else Settled(Kept(a.config.windows, a), Remembered, 0)
  {
  }

  /** What a settling answers, by provider. */
  function Answered(a: Agent, resident: Resident, trained: int, endpoint: Endpoint): Settled
  {
    if a.provider.Remote? then RemoteLimit(RememberWindow(a, endpoint.reported), endpoint)
    else OllamaLimit(RememberWindow(a, resident.contextLength), resident.contextLength, trained)
  }

  /** A known window is never downgraded to an unknown one, and never carried over to another model. */
  lemma KnownWindowStays(a: Agent, resident: Resident, trained: int, endpoint: Endpoint)
    requires !a.provider.ChatGpt? && a.model != ""
    ensures var b, found := Refresh(a, resident, trained, endpoint), Answered(a, resident, trained, endpoint);
            && b.limitFor == a.model && b.model == a.model && b.host == a.host
            && (found.limit >= 1 ==> b.window == found)
            && (found.limit <= 0 && a.limitFor == a.model && a.window.limit >= 1 ==> b.window == a.window)
            && (found.limit <= 0 && (a.limitFor != a.model || a.window.limit <= 0) ==> b.window == Settled(0, Unknown, 0))
            && (a.provider.Ollama? ==> b.resident == resident)
  {
  }

  lemma NoModelNoWindow(a: Agent, resident: Resident, trained: int, endpoint: Endpoint)
    ensures a.provider.ChatGpt? ==> Refresh(a, resident, trained, endpoint).window == Settled(0, Unknown, 0)
    ensures !a.provider.ChatGpt? && a.model == "" ==> Refresh(a, resident, trained, endpoint) == a
  {
  }

  /** A window an endpoint reported once is used from then on when it says nothing, before the documented one. */
  lemma ReportedIsRemembered(a: Agent, resident: Resident, endpoint: Endpoint, silent: Endpoint)
    requires a.provider.Remote? && a.model != "" && a.config.configured == 0 && endpoint.reported >= 1 && silent.reported <= 0
    ensures var b := Refresh(a, resident, 0, endpoint).(window := NOTHING, limitFor := "");
            Refresh(b, resident, 0, silent).window == Settled(endpoint.reported, Remembered, 0)
  {
  }

  /** Windows of less than 1024 tokens are not usable: refused if the user asks for one, none if documented. */
  lemma SmallWindows(window: nat, config: Config, leftBehind: bool)
    ensures Refused(Some(window)) <==> 1 <= window <= 1023
    ensures !Refused(None)
    ensures Configure(config, Some(window)).configured == window && Configure(config, None) == config
    ensures Publish(config, leftBehind, Some(window)).published == if window <= 1023 then 0 else window
    ensures Publish(config, leftBehind, None).published == if leftBehind then 0 else config.published
  {
  }

  /** A spill is acted on when the window requested by the agent, not the user, is above the minimum and part of
      the model, but not all, is in GPU memory. */
  lemma SpillsIff(a: Agent)
    ensures Spills(a) <==>
            a.window.requested > 1024 && a.window.source != Configured && 1 <= a.resident.sizeVram < a.resident.size
  {
  }

  /** After a spill half the window is asked for, within the trained one, and never less than 1024. */
  lemma BackOffHalves(a: Agent, resident: Resident, trained: int, endpoint: Endpoint)
    requires a.provider.Ollama? && a.model != "" && a.config.configured == 0 && Spills(a) && trained >= 1024
    ensures var half := if a.window.requested / 2 < 1024 then 1024 else a.window.requested / 2;
            var b := BackOff(a, resident, trained, endpoint);
            && Kept(b.config.windowCaps, b) == half
            && b.window.requested == b.window.limit == if trained < half then trained else half
  {
  }

  // ----- What is requested is what is budgeted -----

  /** While the provider is Ollama, `num_ctx` is not sent or equals the window budgeted against. */
  predicate RequestMatchesBudget(a: Agent)
  {
    a.provider.Ollama? ==> a.window.requested == 0 || a.window.requested == a.window.limit
  }

  // ----- One local model without a user-pinned window -----

  /** What holds of a local model whose trained window is fixed: a requested window fits the trained
      one, comes with a remembered window when that is unknown, and fits the measured cap. */
  predicate Tracked(a: Agent, trained: int)
  {
    && a.provider.Ollama? && a.model != "" && a.limitFor == a.model && a.config.configured == 0
    && a.window.source != Configured
    && (a.window.requested > 0 ==> (if trained > 0 then a.window.requested <= trained else RememberedWindow(a) > 0))
    && (MeasuredCap(a) > 0 ==> MeasuredCap(a) >= MINIMUM_CONTEXT_WINDOW && a.window.requested <= MeasuredCap(a))
  }

  /** The first settling after a switch to a local model starts the tracking. */
  lemma SettlingStartsTracking(a: Agent, resident: Resident, trained: int, endpoint: Endpoint)
    requires a.provider.Ollama? && a.model != "" && a.config.configured == 0 && a.window == NOTHING
    requires MeasuredCap(a) > 0 ==> MeasuredCap(a) >= MINIMUM_CONTEXT_WINDOW
    ensures Tracked(Refresh(a, resident, trained, endpoint), trained)
  {
  }

  lemma RefreshKeepsTracked(a: Agent, resident: Resident, trained: int, endpoint: Endpoint)
    requires Tracked(a, trained)
    ensures var b := Refresh(a, resident, trained, endpoint);
            Tracked(b, trained) && MeasuredCap(b) == MeasuredCap(a)
  {
  }

  /** A successful back-off halves the cap and strictly lowers the requested window, which was above the
      minimum and stays at it or above, or is no longer requested at all. */
  lemma BackOffDescends(a: Agent, resident: Resident, trained: int, endpoint: Endpoint)
    requires Tracked(a, trained) && Spills(a)
    ensures var b := BackOff(a, resident, trained, endpoint);
            && Tracked(b, trained) && MeasuredCap(b) == Reduced(a)
            && MINIMUM_CONTEXT_WINDOW < a.window.requested
            && b.window.requested < a.window.requested
            && (b.window.requested == 0 || b.window.requested >= MINIMUM_CONTEXT_WINDOW)
  {
  }

  /** Events of a session with one local model: the window is settled again, or checked for a spill. */
  datatype Event = Settling(resident: Resident) | Checking(resident: Resident)

  const NO_ENDPOINT := Endpoint(0, 0)

  /** The windows that were backed away from, in order. */
  function BackOffs(a: Agent, trained: int, events: seq<Event>): seq<int>
    decreases |events|
  {
    if events == [] then []
    else match events[0]
      case Settling(r) => BackOffs(Refresh(a, r, trained, NO_ENDPOINT), trained, events[1..])
      case Checking(r) =>
        var later := BackOffs(BackOff(a, r, trained, NO_ENDPOINT), trained, events[1..]);
        if Spills(a) then [a.window.requested] + later else later
  }

  /** A check that finds a spill adds the window it backs away from, and nothing else does. */
  lemma OneBackOff(a: Agent, trained: int, event: Event)
    ensures BackOffs(a, trained, [event]) == if event.Checking? && Spills(a) then [a.window.requested] else []
  {
    assert [event][1..] == [];
  }

  /** Each window in the list is above the minimum and at most half of the one before. */
  predicate Halving(windows: seq<int>, bound: int)
  {
    windows == [] || (MINIMUM_CONTEXT_WINDOW < windows[0] <= bound && Halving(windows[1..], windows[0] / 2))
  }

  function Power2(n: nat): nat { if n == 0 then 1 else 2 * Power2(n - 1) }

  lemma {:induction false} BackOffsHalve(a: Agent, trained: int, events: seq<Event>, bound: int)
    requires Tracked(a, trained)
    requires MeasuredCap(a) > 0 ==> MeasuredCap(a) <= Max(bound, MINIMUM_CONTEXT_WINDOW)
    requires MeasuredCap(a) == 0 ==> BackOffs(a, trained, events) != [] ==> BackOffs(a, trained, events)[0] <= bound
    ensures Halving(BackOffs(a, trained, events), bound)
    decreases |events|
  {
    if events != [] {
      match events[0]
      case Settling(r) =>
        RefreshKeepsTracked(a, r, trained, NO_ENDPOINT);
        BackOffsHalve(Refresh(a, r, trained, NO_ENDPOINT), trained, events[1..], bound);
      case Checking(r) =>
        if Spills(a) {
          BackOffDescends(a, r, trained, NO_ENDPOINT);
          BackOffsHalve(BackOff(a, r, trained, NO_ENDPOINT), trained, events[1..], a.window.requested / 2);
        } else {
          BackOffsHalve(a, trained, events[1..], bound);
        }
    }
  }

  lemma {:induction false} HalvingIsShort(windows: seq<int>, bound: int)
    requires Halving(windows, bound) && windows != []
    ensures MINIMUM_CONTEXT_WINDOW * Power2(|windows| - 1) < windows[0]
  {
    if |windows| > 1 {
      HalvingIsShort(windows[1..], windows[0] / 2);
    }
  }

  /** Back-offs descend: each window backed away from is at most half of the previous one, so n back-offs
      from a first window take n - 1 doublings of the minimum to stay below it: at most the logarithm
      of first / 1024, rounded up. */
  lemma BackOffsAreFew(a: Agent, trained: int, events: seq<Event>)
    requires Tracked(a, trained)
    ensures var windows := BackOffs(a, trained, events);
            windows != [] ==>
              Halving(windows, windows[0]) && MINIMUM_CONTEXT_WINDOW * Power2(|windows| - 1) < windows[0]
  {
    var windows := BackOffs(a, trained, events);
    if windows != [] {
      BackOffsHalve(a, trained, events, Max(windows[0], MeasuredCap(a)));
      HalvingIsShort(windows, Max(windows[0], MeasuredCap(a)));
      assert Halving(windows[1..], windows[0] / 2);
    }
  }

  // ----- The agent -----

  class AgentCore {
    var provider: Provider
    var model: string
    var host: string
    var config: Config
    var contextLimit: int
    var contextSource: Source
    var contextRequested: int
    var contextLimitFor: string
    var lastResident: Resident

    function View(): Agent
      reads this
    {
      Agent(provider, model, host, config, Settled(contextLimit, contextSource, contextRequested),
            contextLimitFor, lastResident)
    }

    constructor (model: string, host: string, config: Config)
      ensures View() == Agent(Ollama, model, host, config, NOTHING, "", Resident(0, 0, 0))
    {
      this.provider, this.model, this.host, this.config := Ollama, model, host, config;
      contextLimit, contextSource, contextRequested := 0, Unknown, 0;
      contextLimitFor, lastResident := "", Resident(0, 0, 0);
    }

    method SetWindow(window: Settled)
      modifies this`contextLimit, this`contextSource, this`contextRequested
      ensures View() == old(View()).(window := window)
    {
      contextLimit, contextSource, contextRequested := window.limit, window.source, window.requested;
    }

    /** Settles on the window in use; what is then requested is what is budgeted against. */
    method RefreshContextLimit(resident: Resident, trained: int, endpoint: Endpoint)
      requires RequestMatchesBudget(View())
      modifies this
      ensures View() == Refresh(old(View()), resident, trained, endpoint) && RequestMatchesBudget(View())
    {
      if provider == ChatGpt {
        SetWindow(NOTHING);
        return;
      }
      if model == "" { return; }
      var found;
      if provider == Remote {
        if endpoint.reported > 0 {
          config := config.(windows := config.windows[Key(View()) := endpoint.reported]);
        }
        found := RemoteLimit(View(), endpoint);
      } else {
        lastResident := resident;
        if resident.contextLength > 0 {
          config := config.(windows := config.windows[Key(View()) := resident.contextLength]);
        }
        found := OllamaLimit(View(), resident.contextLength, trained);
      }
      if model != contextLimitFor {
        SetWindow(NOTHING);
        contextLimitFor := model;
      }
      if found.limit > 0 {
        SetWindow(found);
      } else if contextLimit <= 0 {
        SetWindow(NOTHING);
      }
    }

    /** Backs off a pinned window that pushed the model out of GPU memory. */
    method CheckContextSpill(resident: Resident, trained: int, endpoint: Endpoint) returns (backedOff: bool)
      requires RequestMatchesBudget(View())
      modifies this
      ensures backedOff <==> Spills(old(View()))
      ensures View() == BackOff(old(View()), resident, trained, endpoint) && RequestMatchesBudget(View())
    {
      backedOff := false;
      if contextRequested <= 0 || contextSource == Configured { return; }
      var size, inVram := lastResident.size, lastResident.sizeVram;
      if size <= 0 || inVram <= 0 || inVram >= size { return; }
      var reduced := Max(contextRequested / 2, MINIMUM_CONTEXT_WINDOW);
      if reduced >= contextRequested { return; }
      if model != "" {
        config := config.(windowCaps := config.windowCaps[Key(View()) := reduced]);
      }
      RefreshContextLimit(resident, trained, endpoint);
      backedOff := true;
    }

    /** Sets the window the user asks for, or refuses it. */
    method ApplyContextWindow(requested: Option<nat>) returns (accepted: bool)
      modifies this`config
      ensures accepted <==> !Refused(requested)
      ensures config == if accepted then Configure(old(config), requested) else old(config)
    {
      if requested.None? { return true; }
      var resolved := Usable(requested.value);
      if resolved <= 0 && requested.value > 0 { return false; }
      config := config.(configured := resolved);
      accepted := true;
    }

    /** Switches to the local server; nothing is known or requested until the window is settled. */
    method UseOllama(host: string, model: string, requested: Option<nat>) returns (accepted: bool)
      modifies this
      ensures accepted <==> !Refused(requested)
      ensures var before := old(View());
              View() == if accepted then before.(provider := Ollama, host := host, model := model, window := NOTHING,
                                                 config := Configure(before.config, requested))
                        else before
      ensures accepted ==> RequestMatchesBudget(View())
    {
      accepted := ApplyContextWindow(requested);
      if !accepted { return; }
      provider, this.host, this.model := Ollama, host, model;
      SetWindow(NOTHING);
    }

    /** Switches to a hosted endpoint and settles its window at once. `leftBehind` says that no model was named
        and the host is another. */
    method UseRemote(host: string, model: string, requested: Option<nat>, leftBehind: bool, published: Option<nat>,
                     endpoint: Endpoint)
      returns (accepted: bool)
      modifies this
      ensures accepted <==> !Refused(requested)
      ensures var before := old(View());
              View() == if accepted then
                          Refresh(before.(provider := Remote, host := host, model := model, limitFor := "",
                                          config := Publish(Configure(before.config, requested), leftBehind, published),
                                          window := before.window.(limit := 0)),
                                  Resident(0, 0, 0), 0, endpoint)
                        else before
    {
      accepted := ApplyContextWindow(requested);
      if !accepted { return; }
      provider, this.host, this.model := Remote, host, model;
      if leftBehind { config := config.(published := 0); }
      if published.Some? { config := config.(published := Usable(published.value)); }
      contextLimit, contextLimitFor := 0, "";
      RefreshContextLimit(Resident(0, 0, 0), 0, endpoint);
    }

    /** Switches models; a number measured for another model is not kept. */
    method SetModel(name: string, resident: Resident, trained: int, endpoint: Endpoint)
      requires RequestMatchesBudget(View())
      modifies this
      ensures View() == Refresh(old(View()).(model := name), resident, trained, endpoint)
      ensures RequestMatchesBudget(View())
    {
      model := name;
      RefreshContextLimit(resident, trained, endpoint);
    }
  }
}
