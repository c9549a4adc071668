/** Sequences of hook calls against one filter instance, as the host
    pipeline makes them: the session context written by `inlet` is read by
    later calls, and an operator may change the valves between calls. */
module Sessions {
  import opened Outcomes
  import opened Values
  import opened Settings
  import opened LogFormat
  import opened DevLogger

  datatype Call =
    | InletCall(body: Dict, user: Option<Dict>, model: Option<Dict>)
    | StreamCall(event: Value)
    | OutletCall(body: Dict, user: Option<Dict>, model: Option<Dict>)
    | Configure(valves: Valves)

  /** What a call hands back to the pipeline. */
  datatype Reply = BodyReply(body: Dict) | EventReply(event: Value) | Configured

  /** The reply the pass-through contract demands: the call's own payload. */
  function Echo(c: Call): Reply
  {
    match c
    case InletCall(b, _, _) => BodyReply(b)
    case StreamCall(e) => EventReply(e)
    case OutletCall(b, _, _) => BodyReply(b)
    case Configure(_) => Configured
  }

  function Apply(f: Filter, c: Call, strOf: Value -> string): Step<Reply>
  {
    match c
    case InletCall(b, u, m) =>
      var s := Inlet(f, b, u, m);
      Step(BodyReply(s.returned), s.filter, s.log)
    case StreamCall(e) =>
      var s := Stream(f, e, strOf);
      Step(EventReply(s.returned), s.filter, s.log)
    case OutletCall(b, u, m) =>
      var s := Outlet(f, b, u, m);
      Step(BodyReply(s.returned), s.filter, s.log)
    case Configure(v) =>
      Step(Configured, f.(valves := v), [])
  }

  /** The replies, final state and whole console log of a call sequence. */
  function Run(f: Filter, calls: seq<Call>, strOf: Value -> string): Step<seq<Reply>>
    decreases |calls|
  {
    if |calls| == 0 then Step([], f, [])
    else
      var s := Apply(f, calls[0], strOf);
      var rest := Run(s.filter, calls[1..], strOf);
      Step([s.returned] + rest.returned, rest.filter, s.log + rest.log)
  }

  /** Every call of every run hands its payload back unchanged. */
  lemma {:induction false} RunPassesEverythingThrough(f: Filter, calls: seq<Call>, strOf: Value -> string)
    ensures |Run(f, calls, strOf).returned| == |calls|
    ensures forall k :: 0 <= k < |calls| ==> Run(f, calls, strOf).returned[k] == Echo(calls[k])
    decreases |calls|
  {
    if |calls| > 0 {
      RunPassesEverythingThrough(Apply(f, calls[0], strOf).filter, calls[1..], strOf);
    }
  }

  /** While the master switch stays off, nothing at all is printed,
      whatever the other valves say or are changed to. */
  lemma {:induction false} RunSilentWhileDisabled(f: Filter, calls: seq<Call>, strOf: Value -> string)
    requires !f.valves.enabled
    requires forall k :: 0 <= k < |calls| && calls[k].Configure? ==> !calls[k].valves.enabled
    ensures Run(f, calls, strOf).log == []
    ensures !Run(f, calls, strOf).filter.valves.enabled
    decreases |calls|
  {
    if |calls| > 0 {
      RunSilentWhileDisabled(Apply(f, calls[0], strOf).filter, calls[1..], strOf);
    }
  }

  /** A freshly constructed filter prints nothing until an operator
      switches it on. */
  lemma InitialFilterIsSilent(calls: seq<Call>, strOf: Value -> string)
    requires forall k :: 0 <= k < |calls| && calls[k].Configure? ==> !calls[k].valves.enabled
    ensures Run(Initial, calls, strOf).log == []
  {
    RunSilentWhileDisabled(Initial, calls, strOf);
  }

  /** Only an inlet call with a truthy user changes the stored context;
      stream calls, outlet calls, valve changes and inlet calls with a
      None or empty user leave it as it was. */
  lemma {:induction false} RunKeepsContext(f: Filter, calls: seq<Call>, strOf: Value -> string)
    requires forall k :: 0 <= k < |calls| ==> !(calls[k].InletCall? && TruthyDict(calls[k].user))
    ensures Run(f, calls, strOf).filter.lastUserInfo == f.lastUserInfo
    ensures Run(f, calls, strOf).filter.lastModelId == f.lastModelId
    decreases |calls|
  {
    if |calls| > 0 {
      RunKeepsContext(Apply(f, calls[0], strOf).filter, calls[1..], strOf);
    }
  }

  /** After an inlet call with identity `u`, and any later calls that bring
      no new identity (including switching logging on), an OUTLET block
      shows `u`, whichever user is passed to the outlet hook. */
  lemma OutletAfterInletShowsCapturedIdentity(
    f: Filter, body: Dict, u: Dict, model: Option<Dict>,
    calls: seq<Call>, strOf: Value -> string,
    outBody: Dict, outUser: Dict, outModel: Option<Dict>)
    requires |u| > 0
    requires forall k :: 0 <= k < |calls| ==> !(calls[k].InletCall? && TruthyDict(calls[k].user))
    ensures
      var g := Run(Inlet(f, body, Some(u), model).filter, calls, strOf).filter;
      forall e :: e in Outlet(g, outBody, Some(outUser), outModel).log && e.Logged? ==>
        e.block.email == Get(u, "email", NA) && e.block.userRole == Get(u, "role", NA)
  {
    var f1 := Inlet(f, body, Some(u), model).filter;
    RunKeepsContext(f1, calls, strOf);
    var g := Run(f1, calls, strOf).filter;
    assert g.lastUserInfo == u;
    OutletShowsStoredIdentity(g, outBody, Some(outUser), outModel);
  }
}
