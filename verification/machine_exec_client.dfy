/** The machine-exec client: the `create` and `resize` requests, the reply that
    turns into a terminal session, the session's outgoing traffic, and the
    dispatcher that handles the server's notifications on the control
    connection. */
module MachineExecClient {
  import opened Wrappers
  import opened JsValues
  import opened JsonRpc
  import Decimal

  const ControlUrl: string := "ws://localhost:3333/connect"
  const AttachPrefix: string := "ws://localhost:3333/attach/"
  const DefaultCols: int := 80
  const DefaultRows: int := 24

  /** `createTerminalSession`'s request. An absent `commandLine` or an empty
      one starts the default shell; otherwise it is run by `sh -c`. An absent
      or empty working directory is sent as "". Absent geometry takes the
      parameter defaults 80 by 24; explicit values, zero included, are kept. */
  function CreateRequest(component: string, commandLine: Option<string>, workdir: Option<string>,
                         columns: Option<int>, rows: Option<int>): (r: Request)
    ensures r.id == 0 && MethodOf(r.params) == "create" && r.params.CreateParams?
    ensures r.params.identifier == Identifier(Some(component), None)
    ensures r.params.tty
    ensures TruthyText(commandLine) ==> r.params.cmd == ["sh", "-c", commandLine.value]
    ensures !TruthyText(commandLine) ==> r.params.cmd == []
    ensures r.params.cwd == Some(if TruthyText(workdir) then workdir.value else "")
    ensures columns.Some? ==> r.params.cols == columns.value
    ensures columns.None? ==> r.params.cols == 80
    ensures rows.Some? ==> r.params.rows == rows.value
    ensures rows.None? ==> r.params.rows == 24
    ensures IsRequestObject(Encode(r)) && Decode(Encode(r)) == Some(r)
  {
    var r := Request(0, CreateParams(
      Identifier(Some(component), None),
      if TruthyText(commandLine) then ["sh", "-c", commandLine.value] else [],
      true,
      Some(if TruthyText(workdir) then workdir.value else ""),
      columns.GetOr(DefaultCols),
      rows.GetOr(DefaultRows)));
    EncodeIsRequestObject(r);
    EncodeRoundTrip(r);
    r
  }

  /** A terminal session, known by the id the server assigned. */
  datatype Session = Session(id: int)

  /** The listener on the single next frame after `create` is sent. The frame's
      `result` must be a finite number (`Number.isFinite`, no coercion); the id
      is not checked. None when the promise is never resolved, including when
      reading `result` of a null frame throws. */
  function CreateReply(frame: Value): (r: Option<Session>)
    ensures r.Some? <==> Prop(frame, "result").Some? && IsFiniteNumber(Prop(frame, "result").value)
    ensures r.Some? ==> Prop(frame, "result") == Some(Number(Finite(r.value.id)))
  {
    match Prop(frame, "result")
    case None => None
    case Some(result) => if IsFiniteNumber(result) then Some(Session(result.n.value)) else None
  }

  /** `createTerminalSession` as a whole: the request it sends and the session
      the first frame that follows yields. */
  function CreateTerminalSession(component: string, commandLine: Option<string>, workdir: Option<string>,
                                 columns: Option<int>, rows: Option<int>, frames: seq<Value>): (r: (Request, Option<Session>))
    ensures r.0 == CreateRequest(component, commandLine, workdir, columns, rows)
    ensures r.1.Some? ==> |frames| > 0 && CreateReply(frames[0]) == r.1
    ensures |frames| > 0 ==> r.1 == CreateReply(frames[0])
  {
    (CreateRequest(component, commandLine, workdir, columns, rows),
     if |frames| == 0 then None else CreateReply(frames[0]))
  }

  /** The URL the session's own connection is opened at. */
  function AttachUrl(s: Session): string {
    AttachPrefix + Decimal.IntText(s.id)
  }

  /** Reads the session id back out of an attach URL. */
  function AttachedSession(url: string): Option<int> {
    if |url| >= |AttachPrefix| && url[..|AttachPrefix|] == AttachPrefix then Decimal.ParseInt(url[|AttachPrefix|..])
    else None
  }

  /** Distinct sessions attach at distinct URLs, and the URL names the session. */
  lemma AttachUrlRoundTrip(s: Session)
    ensures AttachedSession(AttachUrl(s)) == Some(s.id)
  {
    var url := AttachUrl(s);
    assert url[..|AttachPrefix|] == AttachPrefix;
    assert url[|AttachPrefix|..] == Decimal.IntText(s.id);
    Decimal.IntTextRoundTrip(s.id);
  }

  /** The control connection is never opened at a session's attach URL, and
      no session id can be read out of it. */
  lemma ControlIsNotAttach(s: Session)
    ensures ControlUrl != AttachUrl(s)
    ensures AttachedSession(ControlUrl) == None
  {
    assert ControlUrl[20] == 'c' && AttachUrl(s)[20] == 'a' && AttachPrefix[20] == 'a';
  }

  /** `resize(sessionID, columns, rows)`. Geometry that is undefined is left out
      of the JSON text. */
  function ResizeRequest(session: int, cols: Option<int>, rows: Option<int>): (r: Request)
    ensures r.id == 0 && MethodOf(r.params) == "resize"
    ensures r.params == ResizeParams(session, cols, rows)
    ensures IsRequestObject(Encode(r)) && Decode(Encode(r)) == Some(r)
  {
    var r := Request(0, ResizeParams(session, cols, rows));
    EncodeIsRequestObject(r);
    EncodeRoundTrip(r);
    r
  }

  /** What a caller does with a `TerminalSession`. */
  datatype SessionCall = Resize(cols: Option<int>, rows: Option<int>) | Send(data: string)

  /** A frame leaving the client: a request on the control connection or raw
      data on the session's own connection. */
  datatype Outgoing = ToServer(request: Request) | ToTerminal(data: string)

  /** `TerminalSession.resize` delegates to the client with the session's id;
      `send` writes its data to the session connection unchanged. */
  function Perform(s: Session, call: SessionCall): (r: Outgoing)
    ensures call.Resize? ==>
      (r.ToServer? && r.request.id == 0 && r.request.params == ResizeParams(s.id, call.cols, call.rows))
    ensures call.Send? ==> r == ToTerminal(call.data)
  {
    match call
    case Resize(cols, rows) => ToServer(ResizeRequest(s.id, cols, rows))
    case Send(data) => ToTerminal(data)
  }

  /** The traffic of a series of calls on one session. */
  function PerformAll(s: Session, calls: seq<SessionCall>): (r: seq<Outgoing>)
    ensures |r| == |calls|
    ensures forall i :: 0 <= i < |calls| ==> r[i] == Perform(s, calls[i])
  {
    if |calls| == 0 then [] else [Perform(s, calls[0])] + PerformAll(s, calls[1..])
  }

  /** Each call emits exactly one frame: a resize becomes one `resize` request
      for this session on the control connection and never terminal data; sent
      data reaches the terminal unchanged and in order. */
  lemma SessionTraffic(s: Session, calls: seq<SessionCall>, i: int)
    requires 0 <= i < |calls|
    ensures PerformAll(s, calls)[i].ToServer? <==> calls[i].Resize?
    ensures calls[i].Resize? ==>
      (MethodOf(PerformAll(s, calls)[i].request.params) == "resize"
       && PerformAll(s, calls)[i].request.params.session == s.id)
    ensures calls[i].Send? ==> PerformAll(s, calls)[i] == ToTerminal(calls[i].data)
  {
  }

  // The notification dispatcher installed by the constructor.

  datatype Notice = Connected | ExecExit | ExecError | Other

  /** Classifies a frame by strict equality of its `method` with the three
      names the server pushes. None when reading `method` throws (null frame). */
  function Classify(frame: Value): (r: Option<Notice>)
    ensures r.None? <==> IsNullish(frame)
    ensures r == Some(Connected) <==> Prop(frame, "method") == Some(Str("connected"))
    ensures r == Some(ExecExit) <==> Prop(frame, "method") == Some(Str("onExecExit"))
    ensures r == Some(ExecError) <==> Prop(frame, "method") == Some(Str("onExecError"))
  {
    match Prop(frame, "method")
    case None => None
    case Some(m) =>
      if m == Str("connected") then Some(Connected)
      else if m == Str("onExecExit") then Some(ExecExit)
      else if m == Str("onExecError") then Some(ExecError)
      else Some(Other)
  }

  /** An exit callback: the default no-op or one the caller registered. */
  datatype Handler = NoOp | Callback(tag: nat)

  datatype ClientState = ClientState(initResolved: bool, exitHandler: Handler, errorsLogged: nat)

  const Initial: ClientState := ClientState(false, NoOp, 0)

  /** What reaches the client: a frame from the server or an `onExit` call. */
  datatype Input = Frame(v: Value) | OnExit(h: Handler)

  /** One input. `connected` resolves the init promise (resolving it again
      changes nothing), `onExecExit` calls the exit handler current at that
      moment, `onExecError` is only logged, and everything else, including a
      frame the handler throws on, has no effect. `onExit` replaces the
      handler. */
  function Step(st: ClientState, input: Input): (r: (ClientState, seq<Handler>))
    ensures input.OnExit? ==> r.0 == st.(exitHandler := input.h) && r.1 == []
    ensures input.Frame? ==> r.0.exitHandler == st.exitHandler
    ensures input.Frame? && Classify(input.v) == Some(ExecExit) ==> r.1 == [st.exitHandler] && r.0 == st
    ensures !(input.Frame? && Classify(input.v) == Some(ExecExit)) ==> r.1 == []
    ensures r.0.initResolved <==> st.initResolved || (input.Frame? && Classify(input.v) == Some(Connected))
  {
    match input
    case OnExit(h) => (st.(exitHandler := h), [])
    case Frame(v) =>
      match Classify(v)
      case Some(Connected) => (st.(initResolved := true), [])
      case Some(ExecExit) => (st, [st.exitHandler])
      case Some(ExecError) => (st.(errorsLogged := st.errorsLogged + 1), [])
      case _ => (st, [])
  }

  /** Runs a series of inputs; yields the final state and the handlers called,
      in call order. */
  function Run(st: ClientState, inputs: seq<Input>): (ClientState, seq<Handler>)
    decreases |inputs|
  {
    if |inputs| == 0 then (st, [])
    else
      var (next, calls) := Step(st, inputs[0]);
      var (last, more) := Run(next, inputs[1..]);
      (last, calls + more)
  }

  lemma {:induction false} RunSnoc(st: ClientState, inputs: seq<Input>, x: Input)
    ensures Run(st, inputs + [x]) ==
      (Step(Run(st, inputs).0, x).0, Run(st, inputs).1 + Step(Run(st, inputs).0, x).1)
    decreases |inputs|
  {
    if |inputs| > 0 {
      var s0 := Step(st, inputs[0]);
      assert (inputs + [x])[1..] == inputs[1..] + [x];
      RunSnoc(s0.0, inputs[1..], x);
      var rest := Run(s0.0, inputs[1..]);
      var last := Step(rest.0, x);
      assert Run(st, inputs) == (rest.0, s0.1 + rest.1);
      assert Run(st, inputs + [x]) == (last.0, s0.1 + (rest.1 + last.1));
      assert s0.1 + (rest.1 + last.1) == (s0.1 + rest.1) + last.1;
    } else {
      assert inputs + [x] == [x];
      assert [x][1..] == [];
      assert Step(st, x).1 + [] == Step(st, x).1;
      assert Run(st, inputs) == (st, []);
      assert [] + Step(st, x).1 == Step(st, x).1;
      assert Run(st, [x]) == (Run(Step(st, x).0, []).0, Step(st, x).1 + Run(Step(st, x).0, []).1);
    }
  }

  /** The handler most recently registered in `inputs`, or `dflt`. */
  function LastRegistered(inputs: seq<Input>, dflt: Handler): Handler {
    if |inputs| == 0 then dflt
    else if inputs[|inputs| - 1].OnExit? then inputs[|inputs| - 1].h
    else LastRegistered(inputs[..|inputs| - 1], dflt)
  }

  /** The last `onExit` registration wins, and until there is one the handler
      is the default no-op. */
  lemma {:induction false} LastRegistrationWins(inputs: seq<Input>)
    ensures Run(Initial, inputs).0.exitHandler == LastRegistered(inputs, NoOp)
  {
    if |inputs| > 0 {
      var init := inputs[..|inputs| - 1];
      assert init + [inputs[|inputs| - 1]] == inputs;
      RunSnoc(Initial, init, inputs[|inputs| - 1]);
      LastRegistrationWins(init);
    }
  }

  /** An `onExecExit` frame calls exactly the handler registered last before
      it, once, and adds nothing else to the calls. */
  lemma ExitCallsCurrentHandler(inputs: seq<Input>, frame: Value)
    requires Classify(frame) == Some(ExecExit)
    ensures Run(Initial, inputs + [Frame(frame)]).1 == Run(Initial, inputs).1 + [LastRegistered(inputs, NoOp)]
  {
    RunSnoc(Initial, inputs, Frame(frame));
    LastRegistrationWins(inputs);
  }

  /** Init is resolved exactly when some frame so far was `connected`. */
  lemma {:induction false} InitResolvedIff(inputs: seq<Input>)
    ensures Run(Initial, inputs).0.initResolved <==>
      exists i :: 0 <= i < |inputs| && inputs[i].Frame? && Classify(inputs[i].v) == Some(Connected)
  {
    if |inputs| > 0 {
      var init := inputs[..|inputs| - 1];
      assert init + [inputs[|inputs| - 1]] == inputs;
      RunSnoc(Initial, init, inputs[|inputs| - 1]);
      InitResolvedIff(init);
      assert forall i :: 0 <= i < |init| ==> init[i] == inputs[i];
    }
  }
}
