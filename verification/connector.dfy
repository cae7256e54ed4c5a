/** The workspace-server variant of the connector: it authenticates against the
    workspace REST API, picks the machine-exec server of the workspace, asks it
    over `/connect` to create a terminal in a chosen machine, and opens an
    `/attach` connection for every reply whose `result` is truthy. */
module Connector {
  import opened Wrappers
  import opened JsValues
  import opened JsonRpc
  import Decimal
  import Seqs
  import MachineExecClient

  const BearerPrefix: string := "Bearer "
  const MachineExecPrefix: string := "che-machine-exec"

  predicate StartsWith(s: string, prefix: string) {
    |prefix| <= |s| && s[..|prefix|] == prefix
  }

  // REST client configuration.

  datatype RestConfig = RestConfig(baseUrl: Option<string>, headers: Option<map<string, string>>)

  /** Reads the token back out of an Authorization header value. */
  function BearerToken(header: string): Option<string> {
    if StartsWith(header, BearerPrefix) then Some(header[|BearerPrefix|..]) else None
  }

  /** The headers object exists only when the token is a non-empty string; it
      then holds exactly one header, which carries the token. */
  function AuthHeaders(token: Option<string>): (r: Option<map<string, string>>)
    ensures r.Some? <==> TruthyText(token)
    ensures r.Some? ==> r.value.Keys == {"Authorization"} && BearerToken(r.value["Authorization"]) == token
  {
    if TruthyText(token) then
      var header := BearerPrefix + token.value;
      assert header[|BearerPrefix|..] == token.value;
      Some(map["Authorization" := header])
    else None
  }

  function RestApiConfig(api: Option<string>, token: Option<string>): (r: RestConfig)
    ensures r.baseUrl == api && r.headers == AuthHeaders(token)
  {
    RestConfig(api, AuthHeaders(token))
  }

  /** `CHE_WORKSPACE_ID || ""`. */
  function WorkspaceId(env: Option<string>): (r: string)
    ensures TruthyText(env) ==> r == env.value
    ensures !TruthyText(env) ==> r == ""
  {
    if TruthyText(env) then env.value else ""
  }

  // Machine and server selection.

  datatype Server = Server(url: Option<string>)
  datatype Machine = Machine(servers: Option<seq<(string, Server)>>)
  datatype Runtime = Runtime(machines: Option<seq<(string, Machine)>>)
  datatype Workspace = Workspace(runtime: Option<Runtime>)

  /** `Object.keys` of a parsed object: every key once, at the position where
      it first occurs, even when the text repeats it. */
  function KeysOf<T>(members: seq<(string, T)>): (ks: seq<string>)
    ensures |ks| <= |members|
    ensures forall i, j :: 0 <= i < j < |ks| ==> ks[i] != ks[j]
    ensures forall i :: 0 <= i < |members| ==> members[i].0 in ks
    ensures forall k :: k in ks ==> exists i :: 0 <= i < |members| && members[i].0 == k
  {
    if |members| == 0 then []
    else
      var init := members[..|members| - 1];
      var last := members[|members| - 1];
      var earlier := KeysOf(init);
      assert forall i :: 0 <= i < |init| ==> init[i] == members[i];
      if last.0 in earlier then earlier else earlier + [last.0]
  }

  /** Keys are listed in order of first occurrence: the keys of a prefix of
      the members are a prefix of the keys of all of them. */
  lemma {:induction false} KeysOfPrefix<T>(members: seq<(string, T)>, n: nat)
    requires n <= |members|
    ensures KeysOf(members[..n]) <= KeysOf(members)
    decreases |members|
  {
    if n < |members| {
      var init := members[..|members| - 1];
      assert members[..n] == init[..n];
      KeysOfPrefix(init, n);
    } else {
      assert members[..n] == members;
    }
  }

  /** Without repeated keys, the keys are those of the members in their order. */
  lemma {:induction false} KeysOfDistinct<T>(members: seq<(string, T)>)
    requires forall i, j :: 0 <= i < j < |members| ==> members[i].0 != members[j].0
    ensures |KeysOf(members)| == |members|
    ensures forall i :: 0 <= i < |members| ==> KeysOf(members)[i] == members[i].0
  {
    if |members| > 0 {
      var init := members[..|members| - 1];
      KeysOfDistinct(init);
      var last := members[|members| - 1];
      var earlier := KeysOf(init);
      assert last.0 !in earlier by {
        forall j | 0 <= j < |init|
          ensures earlier[j] != last.0
        {
          assert init[j] == members[j];
        }
      }
      assert KeysOf(members) == earlier + [last.0];
      assert forall j :: 0 <= j < |init| ==> init[j] == members[j];
    }
  }

  /** `keys.findIndex(e => e.startsWith("che-machine-exec"))`, searching from
      position `from`. */
  function FindFrom(keys: seq<string>, from: nat): (i: int)
    requires from <= |keys|
    ensures i == -1 || from <= i < |keys|
    ensures i == -1 <==> forall j :: from <= j < |keys| ==> !StartsWith(keys[j], MachineExecPrefix)
    ensures i >= 0 ==>
      (StartsWith(keys[i], MachineExecPrefix) && forall j :: from <= j < i ==> !StartsWith(keys[j], MachineExecPrefix))
    decreases |keys| - from
  {
    if from == |keys| then -1
    else if StartsWith(keys[from], MachineExecPrefix) then from
    else FindFrom(keys, from + 1)
  }

  /** The index of the first key naming a machine-exec machine, or -1. */
  function FindMachineExecKey(keys: seq<string>): (i: int)
    ensures -1 <= i < |keys|
    ensures i == -1 <==> forall j :: 0 <= j < |keys| ==> !StartsWith(keys[j], MachineExecPrefix)
    ensures i >= 0 ==>
      (StartsWith(keys[i], MachineExecPrefix) && forall j :: 0 <= j < i ==> !StartsWith(keys[j], MachineExecPrefix))
  {
    FindFrom(keys, 0)
  }

  /** `keys[i]` used as a property key: out of range it is `undefined`, which
      names the property "undefined". */
  function KeyAt(keys: seq<string>, i: int): (k: string)
    ensures 0 <= i < |keys| ==> k == keys[i]
    ensures !(0 <= i < |keys|) ==> k == "undefined"
  {
    if 0 <= i < |keys| then keys[i] else ToText(Undefined)
  }

  /** `servers["che-machine-exec"] ?? servers["terminal"]`. */
  function PickServer(servers: seq<(string, Server)>): (r: Option<Server>)
    ensures Lookup(servers, "che-machine-exec").Some? ==> r == Lookup(servers, "che-machine-exec")
    ensures Lookup(servers, "che-machine-exec").None? ==> r == Lookup(servers, "terminal")
  {
    match Lookup(servers, "che-machine-exec")
    case Some(s) => Some(s)
    case None => Lookup(servers, "terminal")
  }

  /** The machine keys offered to the user and the server URL to connect to. */
  datatype Endpoint = Endpoint(machineKeys: seq<string>, url: Option<string>)

  /** Steps through `runtime?.machines`, the first machine-exec machine, its
      `servers` and the server entry. None when the handler returns early
      (no machines, no servers) or throws (the selected machine or server does
      not exist). */
  function SelectEndpoint(ws: Workspace): (r: Option<Endpoint>)
    ensures r.Some? <==>
      && ws.runtime.Some? && ws.runtime.value.machines.Some?
      && var machines := ws.runtime.value.machines.value;
         var keys := KeysOf(machines);
         var m := Lookup(machines, KeyAt(keys, FindMachineExecKey(keys)));
         m.Some? && m.value.servers.Some? && PickServer(m.value.servers.value).Some?
    ensures r.Some? ==>
      var machines := ws.runtime.value.machines.value;
      var keys := KeysOf(machines);
      && r.value.machineKeys == keys
      && exists m :: Lookup(machines, KeyAt(keys, FindMachineExecKey(keys))) == Some(m)
           && m.servers.Some? && PickServer(m.servers.value) == Some(Server(r.value.url))
  {
    if ws.runtime.None? || ws.runtime.value.machines.None? then None
    else
      var machines := ws.runtime.value.machines.value;
      var keys := KeysOf(machines);
      match Lookup(machines, KeyAt(keys, FindMachineExecKey(keys)))
      case None => None
      case Some(m) =>
        if m.servers.None? then None
        else match PickServer(m.servers.value)
          case None => None
          case Some(server) => Some(Endpoint(keys, server.url))
  }

  /** The machine the prompt's answer picks. The select prompt answers with an
      index, or nothing when it is cancelled; an index outside the list reads
      `undefined`. */
  function ChoiceMachineName(names: seq<string>, answer: Option<int>): (r: Option<string>)
    ensures r.Some? <==> answer.Some? && 0 <= answer.value < |names|
    ensures r.Some? ==> r.value == names[answer.value] && r.value in names
  {
    if answer.Some? && 0 <= answer.value < |names| then Some(names[answer.value]) else None
  }

  // URLs and the create request.

  function ConnectUrl(base: Option<string>, token: Option<string>): (r: string)
    ensures StartsWith(r, OptText(base))
    ensures r[|OptText(base)|..] == "/connect?token=" + OptText(token)
  {
    OptText(base) + "/connect?token=" + OptText(token)
  }

  function AttachUrl(base: Option<string>, terminalId: Value, token: Option<string>): string {
    OptText(base) + "/attach/" + ToText(terminalId) + "?token=" + OptText(token)
  }

  /** Reads the terminal segment of an attach URL built on `base` with `token`. */
  function AttachSegment(url: string, base: Option<string>, token: Option<string>): Option<string> {
    var head := OptText(base) + "/attach/";
    var tail := "?token=" + OptText(token);
    if |head| + |tail| <= |url| && url[..|head|] == head && url[|url| - |tail|..] == tail then
      Some(url[|head|..|url| - |tail|])
    else None
  }

  /** The attach URL names the terminal the server returned; for an integral
      id the id itself can be read back. */
  lemma AttachUrlRoundTrip(base: Option<string>, terminalId: Value, token: Option<string>)
    ensures AttachSegment(AttachUrl(base, terminalId, token), base, token) == Some(ToText(terminalId))
    ensures terminalId.Number? && terminalId.n.Finite? ==>
      Decimal.ParseInt(AttachSegment(AttachUrl(base, terminalId, token), base, token).value) == Some(terminalId.n.value)
  {
    var head := OptText(base) + "/attach/";
    var tail := "?token=" + OptText(token);
    var url := AttachUrl(base, terminalId, token);
    assert url == head + ToText(terminalId) + tail;
    Seqs.ConcatSlices(head, ToText(terminalId), tail);
    if terminalId.Number? && terminalId.n.Finite? {
      Decimal.IntTextRoundTrip(terminalId.n.value);
    }
  }

  /** The control connection and a session connection are never opened at the
      same URL. */
  lemma ConnectIsNotAttach(base: Option<string>, terminalId: Value, token: Option<string>)
    ensures ConnectUrl(base, token) != AttachUrl(base, terminalId, token)
  {
    var n := |OptText(base)|;
    assert ConnectUrl(base, token)[n + 1] == 'c';
    assert AttachUrl(base, terminalId, token)[n + 1] == 'a';
  }

  /** The `create` request of this variant: no command, no working directory,
      a fixed 80 by 24 geometry, and the workspace id in the identifier. */
  function CreateRequest(machineName: Option<string>, workspaceId: string): (r: Request)
    ensures r.id == 0 && MethodOf(r.params) == "create" && r.params.CreateParams?
    ensures r.params.identifier == Identifier(machineName, Some(workspaceId))
    ensures r.params.cmd == [] && r.params.tty && r.params.cwd.None?
    ensures r.params.cols == 80 && r.params.rows == 24
    ensures IsRequestObject(Encode(r)) && Decode(Encode(r)) == Some(r)
  {
    var r := Request(0, CreateParams(Identifier(machineName, Some(workspaceId)), [], true, None, 80, 24));
    EncodeIsRequestObject(r);
    EncodeRoundTrip(r);
    r
  }

  /** Everything the connector decides before it opens the control connection. */
  datatype Plan = Plan(connectUrl: string, request: Request)

  function PlanConnection(ws: Workspace, token: Option<string>, workspaceEnv: Option<string>,
                          answer: Option<int>): (r: Option<Plan>)
    ensures r.Some? <==> SelectEndpoint(ws).Some?
    ensures r.Some? ==> r.value.connectUrl == ConnectUrl(SelectEndpoint(ws).value.url, token)
    ensures r.Some? ==>
      (r.value.request.params.CreateParams?
       && r.value.request.params.identifier.workspaceId == Some(WorkspaceId(workspaceEnv)))
    ensures r.Some? ==>
      r.value.request == CreateRequest(ChoiceMachineName(SelectEndpoint(ws).value.machineKeys, answer), WorkspaceId(workspaceEnv))
    ensures r.Some? && r.value.request.params.identifier.machineName.Some? ==>
      r.value.request.params.identifier.machineName.value in SelectEndpoint(ws).value.machineKeys
  {
    match SelectEndpoint(ws)
    case None => None
    case Some(endpoint) =>
      Some(Plan(ConnectUrl(endpoint.url, token),
                CreateRequest(ChoiceMachineName(endpoint.machineKeys, answer), WorkspaceId(workspaceEnv))))
  }

  // Replies on the control connection.

  datatype ReplyOutcome = Attach(terminalId: Value) | Ignore | Throw

  /** `if (json.result)`: any truthy result opens a session connection, so 0,
      null, false, "" and an absent result open nothing. Reading `result` of
      a null reply throws. */
  function AcceptReply(frame: Value): (r: ReplyOutcome)
    ensures r == Throw <==> IsNullish(frame)
    ensures r.Attach? <==> Prop(frame, "result").Some? && Truthy(Prop(frame, "result").value)
    ensures r.Attach? ==> Prop(frame, "result") == Some(r.terminalId)
  {
    match Prop(frame, "result")
    case None => Throw
    case Some(result) => if Truthy(result) then Attach(result) else Ignore
  }

  predicate HasTruthyResult(frame: Value) {
    AcceptReply(frame).Attach?
  }

  function AttachUrlOf(base: Option<string>, token: Option<string>, frame: Value): string {
    match AcceptReply(frame)
    case Attach(id) => AttachUrl(base, id, token)
    case _ => ""
  }

  /** The listener stays on every message: each reply with a truthy result
      opens one more session connection, until a reply makes it throw. */
  function AttachUrls(base: Option<string>, token: Option<string>, frames: seq<Value>): (r: seq<string>)
    ensures |r| <= |frames|
    decreases |frames|
  {
    if |frames| == 0 then []
    else match AcceptReply(frames[0])
      case Throw => []
      case Ignore => AttachUrls(base, token, frames[1..])
      case Attach(id) => [AttachUrl(base, id, token)] + AttachUrls(base, token, frames[1..])
  }

  /** Without a throwing reply, the connections opened are exactly one per
      reply with a truthy result, in arrival order. */
  lemma {:induction false} AttachUrlsExact(base: Option<string>, token: Option<string>, frames: seq<Value>)
    requires forall i :: 0 <= i < |frames| ==> !IsNullish(frames[i])
    ensures AttachUrls(base, token, frames) ==
      Seqs.Map(Seqs.Filter(frames, HasTruthyResult), (f: Value) => AttachUrlOf(base, token, f))
    decreases |frames|
  {
    if |frames| > 0 {
      AttachUrlsExact(base, token, frames[1..]);
      var f := (v: Value) => AttachUrlOf(base, token, v);
      var rest := Seqs.Filter(frames[1..], HasTruthyResult);
      assert AcceptReply(frames[0]) != Throw;
      if HasTruthyResult(frames[0]) {
        assert Seqs.Filter(frames, HasTruthyResult) == [frames[0]] + rest;
        Seqs.MapAppend([frames[0]], rest, f);
        assert Seqs.Map([frames[0]], f) == [AttachUrl(base, AcceptReply(frames[0]).terminalId, token)];
      } else {
        assert Seqs.Filter(frames, HasTruthyResult) == rest;
      }
    }
  }

  /** A null reply makes the listener throw: the connections opened are those
      of the replies before it, and no later reply opens anything. */
  lemma {:induction false} AttachUrlsStop(base: Option<string>, token: Option<string>, frames: seq<Value>, k: int)
    requires 0 <= k < |frames| && IsNullish(frames[k])
    ensures AttachUrls(base, token, frames) == AttachUrls(base, token, frames[..k])
    decreases k
  {
    if k > 0 && !IsNullish(frames[0]) {
      AttachUrlsStop(base, token, frames[1..], k - 1);
      assert frames[..k][1..] == frames[1..][..k - 1];
      assert frames[..k][0] == frames[0];
    }
  }

  // The two variants disagree on which create replies start a session.

  /** Both variants accept a finite non-zero number; the machine-exec client
      also accepts 0, which this variant ignores; this variant also accepts any
      other truthy result (an infinity, a non-empty string, true, an array or
      an object), which the machine-exec client ignores. */
  lemma CreateAcceptanceDiffers(frame: Value)
    ensures MachineExecClient.CreateReply(frame).Some? && AcceptReply(frame).Attach? <==>
      exists k :: k != 0 && Prop(frame, "result") == Some(Number(Finite(k)))
    ensures MachineExecClient.CreateReply(frame).Some? && !AcceptReply(frame).Attach? <==>
      Prop(frame, "result") == Some(Number(Finite(0)))
  {
  }
}
