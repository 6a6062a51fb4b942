# Counter view controller

A model of the behaviour of the counter demo's client (`client/src/App.tsx`):
one counter record fetched from a remote counter service on mount, changed by
"+ Increment" and "- Decrement" buttons through remote calls, and a permanent
switch to local arithmetic ("local mode") as soon as a remote call fails.

- `counters.dfy` (`Counters`): the `Counter` record `{id, value, updated_at}`,
  the two operations, the outcome of a remote call (`Ok(counter)` or `Fail`),
  the stub counter and the local ±1 step.
- `view.dfy` (`CounterView`): the component state (`counter`, `isLoading`,
  `error`, `useStubData`, `initialLoadComplete`), the two handlers as pure
  functions `Load` (`loadCounter`) and `Apply` (`handleOperation`), the
  invariant `Settled` every state after mount satisfies, and the
  state-dependent part of the page (`Render`, `Shown`).
- `sessions.dfy` (`Sessions`): sequences of presses, how many calls reach the
  backend, and two concrete sessions: the backend down from the start, and
  the backend failing on the first update after serving value 5.

Each handler is one atomic step: all of a handler's state setters read the
values captured when it started, and the buttons are disabled while a step is
in flight, so steps never interleave. The remote calls and the clock are
parameters: each step receives what the backend would answer and the instant
`new Date()` would return. A reply is consulted only when the handler really
calls the backend.

The load-failure warning does not survive the first button press:
`handleOperation` clears `error` after every completed local step
(App.tsx line 64), so the first press of either button removes it
(`Sessions.FirstPressClearsLoadWarning`, `Sessions.ScenarioBackendDown`).
The mode is the code's boolean `useStubData`, and the one-way switch to local
mode is proved about it.

## Model

| member | source | states |
|---|---|---|
| Counters.LocalStep | client/src/App.tsx:50-58 | a locally computed counter has id 1, the given timestamp, and value exactly one more (increment) or one less (decrement) than the held value, with no bounds |
| Counters.StubCounter | client/src/App.tsx:17-21 | the stub counter has value 0, carries the given timestamp, and every local step from it keeps its id |
| Counters.LocalStepsCancel | client/src/App.tsx:50-52 | a local step followed by the opposite step gives back the original value, from any value, including 0 and negatives |
| CounterView.Load | client/src/App.tsx:17-37 | after the mount-time load the initial load is complete and `isLoading` is untouched; on success the counter is the server's, remote mode, no warning; on failure the counter is `{id 1, value 0, now}`, local mode, and the load-failure warning |
| CounterView.Apply | client/src/App.tsx:43-87 | with no counter the state is unchanged (not even `isLoading` set); otherwise `isLoading` ends false and a counter is held; local mode is never left; in local mode the counter is the ±1 local step and the warning cleared; in remote mode a successful update takes the server's counter, clears the warning and stays remote; a failed update switches to local mode with the switching warning and applies the ±1 step locally |
| CounterView.ReplyMattersExactlyWhenRemote | client/src/App.tsx:44-61 | `CallsRemote` (a counter held and remote mode) is exactly when the handler calls `updateCounter`: then a failing and an answering backend lead to different states, otherwise the reply makes no difference |
| CounterView.ReplyIgnoredOffline | client/src/App.tsx:44-61 | with no counter or in local mode, what the backend would answer has no effect: no remote call is made |
| CounterView.LoadSettles | client/src/App.tsx:23-37 | whatever the fetch does, the state after mount is settled: load complete, not loading, a counter held, id 1 in local mode, and any warning is one of the two messages and only in local mode |
| CounterView.ApplyKeepsSettled | client/src/App.tsx:43-87 | every press keeps a settled state settled |
| CounterView.Render | client/src/App.tsx:89-158 | the loading screen is shown exactly until the initial load is complete; the page then shows the displayed value, the local-mode note exactly in local mode, a warning banner only with the state's own non-empty error and always when there is one, and live buttons exactly when "Updating..." is not shown, which is exactly when no step is in flight |
| CounterView.Shown | client/src/App.tsx:126 | the displayed number is 0 with no counter and otherwise exactly the counter's value (the falsy-zero fallback of `\|\| 0` changes nothing) |
| CounterView.SettledPage | client/src/App.tsx:100-158 | in a settled state the page shows the held value, exactly the current warning, the local-mode note exactly in local mode, enabled buttons and no "Updating..." |
| CounterView.LoadOpensGate | client/src/App.tsx:89-98 | the loading screen is shown before mount-time load and the content after it, whatever the fetch did |
| Sessions.Run | client/src/App.tsx:68-71 | over any sequence of presses local mode is never left, a state without a counter never changes, and settled states stay settled |
| Sessions.Session | client/src/App.tsx:39-41 | every session (mount, then presses) ends settled, and one whose fetch failed ends in local mode |
| Sessions.RemoteCalls | client/src/App.tsx:44-61 | presses call `updateCounter` at most once each, and never while no counter is held |
| Sessions.RemoteFailures | client/src/App.tsx:61-71 | failed remote updates never outnumber remote updates made |
| Sessions.LocalIffFailed | client/src/App.tsx:61-71 | from a state holding a counter, a run ends in local mode exactly when it started there or some remote update failed |
| Sessions.LocalModeIsOffline | client/src/App.tsx:48-59 | once in local mode, no later press calls the backend |
| Sessions.AtMostOneRemoteFailure | client/src/App.tsx:65-71 | at most one remote update fails in any sequence of presses: the first failure switches to local mode for good |
| Sessions.LocalRunNet | client/src/App.tsx:48-64 | in local mode the value after any presses is the starting value plus the number of increments minus the number of decrements; after at least one press the id is 1 and no warning remains |
| Sessions.LocalRunIgnoresReplies | client/src/App.tsx:48-59 | in local mode two press sequences with the same operations and times end in the same state whatever the backend would answer |
| Sessions.RemoteRunFollowsServer | client/src/App.tsx:61-64 | in remote mode, while the backend answers every update, the view stays remote, holds exactly the backend's last answer, shows no warning, and nothing else changes |
| Sessions.IncrementThenDecrement | client/src/App.tsx:50-64 | in local mode increment then decrement returns the original value with id 1, and the first press already clears the warning |
| Sessions.FirstPressClearsLoadWarning | client/src/App.tsx:29-64 | after a failed fetch the load warning is set, and the first press of either button clears it |
| Sessions.ScenarioBackendDown | client/src/App.tsx:23-64 | backend down from the start: the page shows 0, the load warning and the local-mode note; after three increments it shows 3, no warning, and the backend was never called |
| Sessions.ScenarioBackendDropsOut | client/src/App.tsx:43-87 | server serves value 5, one update call fails: exactly one remote call, local mode, the page shows 6 with the switching warning |

## Left out

- JSX layout, styling classes and UI component imports (App.tsx lines 2-4, 100-163) beyond the state-dependent content `Render` records: presentation only.
- The remote transport and the server's counter implementation: foreign calls; their outcome is a `Reply` input of each step.
- Wall-clock time: `new Date()` is a `Timestamp` input; the "Last updated" text (`toLocaleString`, line 129) is locale dependent and not modelled.
- `console.error` logging (lines 30, 66): side effect only.
- States in the middle of a handler, React scheduling, async interleaving and stale closures: each handler is one atomic step, and the disabled buttons rule out overlap. So the model does not show `loadCounter` clearing `error` before its fetch (line 25), nor `handleOperation` holding `isLoading` set while `updateCounter` is in flight (line 46); `handleOperation` clears `error` only after the reply (line 64).
- JavaScript number precision: `value` is an unbounded integer, so behaviour above 2^53 is not modelled.
- The catch branch's local-mode arm (`useStubData` already true when `updateCounter` throws) is kept in `Fallback` as written, but it is unreachable: in local mode the `try` block makes no call that can throw.
