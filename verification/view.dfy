/**
 The counter view controller: the state the `App` component keeps, its two
 handlers (`loadCounter`, run once on mount, and `handleOperation`), and the
 part of the page that depends on that state.

 Each handler is one atomic step from the state before to the state after:
 all of a handler's state setters read the values captured when it started,
 and the buttons are disabled while a step is in flight.
 */
module CounterView {
  import opened Counters

  /** The warning shown when the initial fetch fails. */
  const LoadFailedMessage: string := "Backend server is not available. Using local counter instead."

  /** The warning shown when a remote update fails. */
  const SwitchMessage: string := "Backend server is not available. Switching to local counter."

  /** The five pieces of component state. `useStubData` is the mode: false
      trusts the backend, true computes every change locally. */
  datatype ViewState = ViewState(
    counter: Option<Counter>,
    isLoading: bool,
    error: Option<string>,
    useStubData: bool,
    initialLoadComplete: bool)

  /** The state before anything has happened. */
  const Initial: ViewState := ViewState(None, false, None, false, false)

  /** `loadCounter`: fetch the counter; on failure fall back to the stub
      counter in local mode. Either way the initial load is then complete. */
  function Load(s: ViewState, reply: Reply, now: Timestamp): (r: ViewState)
    ensures r.initialLoadComplete
    ensures r.isLoading == s.isLoading
    ensures reply.Ok? ==>
              r.counter == Some(reply.counter) && !r.useStubData && r.error == None
    ensures reply.Fail? ==>
              && r.counter == Some(Counter(1, 0, now))
              && r.useStubData
              && r.error == Some(LoadFailedMessage)
  {
    var cleared := s.(error := None);
    var settled :=
      match reply
      case Ok(c) => cleared.(counter := Some(c), useStubData := false)
      case Fail =>
        cleared.(error := Some(LoadFailedMessage), counter := Some(StubCounter(now)), useStubData := true);
    settled.(initialLoadComplete := true)
  }

  /** How the `try` block of `handleOperation` ends. */
  datatype Attempt = Completed(next: ViewState) | Threw

  /** The `try` block: in local mode the new value is computed here and
      nothing can throw; in remote mode the backend's reply decides. */
  function TryOperation(s: ViewState, c: Counter, op: Operation, reply: Reply, now: Timestamp): Attempt
  {
    if s.useStubData then
      Completed(s.(counter := Some(LocalStep(c, op, now))))
    else
      match reply
      case Ok(updated) => Completed(s.(counter := Some(updated)))
      case Fail => Threw
  }

  /** The `catch` block: switch to local mode with a warning unless already
      there, and perform the operation locally regardless. */
  function Fallback(s: ViewState, c: Counter, op: Operation, now: Timestamp): ViewState
  {
    var switched :=
      if !s.useStubData then s.(error := Some(SwitchMessage), useStubData := true) else s;
    switched.(counter := Some(LocalStep(c, op, now)))
  }

  /** Whether `handleOperation` called in state `s` calls `updateCounter`. */
  predicate CallsRemote(s: ViewState)
  {
    s.counter.Some? && !s.useStubData
  }

  /** `handleOperation(op)`. `reply` is what `updateCounter` would answer; it
      is looked at only when the handler actually calls the backend. */
  function Apply(s: ViewState, op: Operation, reply: Reply, now: Timestamp): (r: ViewState)
    // with no counter the handler returns before touching anything
    ensures s.counter.None? ==> r == s
    // with a counter the handler always ends with the loading flag cleared
    ensures s.counter.Some? ==>
              && r.counter.Some?
              && !r.isLoading
              && r.initialLoadComplete == s.initialLoadComplete
    // the switch to local mode is one-way
    ensures s.useStubData ==> r.useStubData
    // local mode: plus or minus one from the held value, id 1, warning cleared
    ensures s.counter.Some? && s.useStubData ==>
              && r.counter == Some(LocalStep(s.counter.value, op, now))
              && r.error == None
    // remote mode, the backend answered: its counter is taken as is
    ensures CallsRemote(s) && reply.Ok? ==>
              && r.counter == Some(reply.counter)
              && r.error == None
              && !r.useStubData
    // remote mode, the backend failed: local mode, warning, local arithmetic
    ensures CallsRemote(s) && reply.Fail? ==>
              && r.counter == Some(LocalStep(s.counter.value, op, now))
              && r.useStubData
              && r.error == Some(SwitchMessage)
  {
    match s.counter
    case None => s
    case Some(c) =>
      var busy := s.(isLoading := true);
      var settled :=
        match TryOperation(busy, c, op, reply, now)
        case Completed(next) => next.(error := None)
        case Threw => Fallback(busy, c, op, now);
      settled.(isLoading := false)
  }

  /** The reply matters only when the backend is called: with no counter, or
      in local mode, any two replies lead to the same state. */
  lemma ReplyIgnoredOffline(s: ViewState, op: Operation, a: Reply, b: Reply, now: Timestamp)
    requires !CallsRemote(s)
    ensures Apply(s, op, a, now) == Apply(s, op, b, now)
  {
  }

  /** `CallsRemote` is exactly when the handler consults the backend: then a
      failing and an answering backend lead to different states, otherwise
      the reply makes no difference. */
  lemma ReplyMattersExactlyWhenRemote(s: ViewState, op: Operation, c: Counter, now: Timestamp)
    ensures CallsRemote(s) <==> Apply(s, op, Fail, now) != Apply(s, op, Ok(c), now)
  {
  }

  /** What the state can look like once the page shows content: the initial
      load is done, no step is in flight, a counter is held, a made-up
      counter carries id 1, and a warning is one of the two messages and
      appears only in local mode. */
  predicate Settled(s: ViewState)
  {
    && s.initialLoadComplete
    && !s.isLoading
    && s.counter.Some?
    && (s.useStubData ==> s.counter.value.id == StubId)
    && (s.error.Some? ==> s.useStubData && (s.error.value == LoadFailedMessage || s.error.value == SwitchMessage))
  }

  /** Mounting the component, whatever the fetch does, leads to a settled state. */
  lemma LoadSettles(reply: Reply, now: Timestamp)
    ensures Settled(Load(Initial, reply, now))
  {
  }

  /** Every press of a button keeps the state settled. */
  lemma ApplyKeepsSettled(s: ViewState, op: Operation, reply: Reply, now: Timestamp)
    ensures Settled(s) ==> Settled(Apply(s, op, reply, now))
  {
  }

  /** The state-dependent part of the page. `Spinner` is the loading screen;
      `Page` carries the warning banner, the local-mode note, the number
      shown, whether the buttons react and whether "Updating..." is shown. */
  datatype Screen =
    | Spinner
    | Page(warning: Option<string>, localMode: bool, shown: int, buttonsEnabled: bool, updating: bool)

  /** The number displayed, `counter?.value || 0`: a missing counter shows 0,
      and so does a value of 0 (falsy), which makes it the value itself. */
  function Shown(counter: Option<Counter>): (v: int)
    ensures counter.None? ==> v == 0
    ensures counter.Some? ==> v == counter.value.value
  {
    match counter
    case None => 0
    case Some(c) => if c.value != 0 then c.value else 0
  }

  /** The page for a state: the loading screen until the initial load is
      complete, then the content. A banner shows the state's warning itself
      and never an empty one (an empty string is falsy), the local-mode note
      follows the mode, and the buttons are live exactly when "Updating..."
      is not shown. */
  function Render(s: ViewState): (v: Screen)
    ensures v.Spinner? <==> !s.initialLoadComplete
    ensures v.Page? ==> v.shown == Shown(s.counter) && v.localMode == s.useStubData
    ensures v.Page? && v.warning.Some? ==> v.warning == s.error && v.warning.value != ""
    ensures v.Page? && s.error.Some? && s.error.value != "" ==> v.warning.Some?
    ensures v.Page? ==> (v.buttonsEnabled <==> !v.updating) && (v.updating <==> s.isLoading)
  {
    if !s.initialLoadComplete then Spinner
    else
      Page(
        if s.error.Some? && s.error.value != "" then s.error else None,
        s.useStubData,
        Shown(s.counter),
        !s.isLoading,
        s.isLoading)
  }

  /** In a settled state the page shows the held value, exactly the current
      warning, the local-mode note exactly in local mode, and live buttons. */
  lemma SettledPage(s: ViewState)
    requires Settled(s)
    ensures Render(s) == Page(s.error, s.useStubData, s.counter.value.value, true, false)
  {
  }

  /** The loading screen is shown until the mount-time load has run, and the
      content from then on, whatever the fetch did. */
  lemma LoadOpensGate(reply: Reply, now: Timestamp)
    ensures Render(Initial) == Spinner
    ensures Render(Load(Initial, reply, now)).Page?
  {
  }
}
