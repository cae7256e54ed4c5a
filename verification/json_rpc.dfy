/** The machine-exec requests the connector sends, as records, and their
    encoding as JSON-RPC 2.0 Request objects (section 4 of the JSON-RPC 2.0
    Specification). A request's method is determined by its parameters. */
module JsonRpc {
  import opened Wrappers
  import opened JsValues
  import Seqs

  const Version: string := "2.0"

  /** Which container (and, for the workspace-server variant, which workspace)
      a new terminal runs in. An absent field is one that was `undefined` and
      that JSON.stringify therefore leaves out. */
  datatype Identifier = Identifier(machineName: Option<string>, workspaceId: Option<string>)

  datatype Params =
    | ListContainersParams
    | CreateParams(identifier: Identifier, cmd: seq<string>, tty: bool, cwd: Option<string>, cols: int, rows: int)
    | ResizeParams(session: int, newCols: Option<int>, newRows: Option<int>)

  datatype Request = Request(id: int, params: Params)

  /** Method names starting with "rpc." are reserved for the protocol itself. */
  predicate IsReservedName(m: string) {
    |m| >= 4 && m[0] == 'r' && m[1] == 'p' && m[2] == 'c' && m[3] == '.'
  }

  function MethodOf(p: Params): (m: string)
    ensures !IsReservedName(m)
  {
    match p
    case ListContainersParams => "listContainers"
    case CreateParams(_, _, _, _, _, _) => "create"
    case ResizeParams(_, _, _) => "resize"
  }

  function IntValue(i: int): Value {
    Number(Finite(i))
  }

  /** Appends member `key` unless its value is undefined. */
  function WithOpt(ms: seq<(string, Value)>, key: string, v: Option<Value>): seq<(string, Value)> {
    if v.Some? then ms + [(key, v.value)] else ms
  }

  function OptStr(s: Option<string>): Option<Value> {
    if s.Some? then Some(Str(s.value)) else None
  }

  function OptInt(i: Option<int>): Option<Value> {
    if i.Some? then Some(IntValue(i.value)) else None
  }

  function EncodeIdentifier(ident: Identifier): Value {
    Object(WithOpt(WithOpt([], "machineName", OptStr(ident.machineName)), "workspaceId", OptStr(ident.workspaceId)))
  }

  function EncodeParams(p: Params): Value {
    match p
    case ListContainersParams => Array([])
    case CreateParams(ident, cmd, tty, cwd, cols, rows) =>
      Object(WithOpt([("identifier", EncodeIdentifier(ident))] + [("cmd", Array(Seqs.Map(cmd, (c: string) => Str(c))))]
                       + [("tty", Bool(tty))], "cwd", OptStr(cwd))
             + [("cols", IntValue(cols))] + [("rows", IntValue(rows))])
    case ResizeParams(session, cols, rows) =>
      Object(WithOpt(WithOpt([("id", IntValue(session))], "cols", OptInt(cols)), "rows", OptInt(rows)))
  }

  /** The value JSON.stringify serialises for a request. */
  function Encode(r: Request): Value {
    Object([("jsonrpc", Str(Version))] + [("method", Str(MethodOf(r.params)))]
           + [("params", EncodeParams(r.params))] + [("id", IntValue(r.id))])
  }

  /** Section 4 of JSON-RPC 2.0: an object whose `jsonrpc` is exactly "2.0",
      whose `method` is a string not starting with the reserved "rpc.", whose
      `params`, when present, is structured (array or object) and whose `id`,
      when present, is a string, a number or null. */
  predicate IsRequestObject(v: Value) {
    && v.Object?
    && Lookup(v.members, "jsonrpc") == Some(Str(Version))
    && (var m := Lookup(v.members, "method");
        m.Some? && m.value.Str? && !IsReservedName(m.value.s))
    && (var p := Lookup(v.members, "params");
        p.None? || p.value.Array? || p.value.Object?)
    && (var i := Lookup(v.members, "id");
        i.None? || i.value.Str? || i.value.Null? || IsFiniteNumber(i.value))
  }

  // Decoding: the inverse of Encode on every request.

  function DecodeInt(v: Option<Value>): Option<int> {
    if v.Some? && IsFiniteNumber(v.value) then Some(v.value.n.value) else None
  }

  /** An optional string member: Some(None) when absent, None when ill-typed. */
  function DecodeOptStr(v: Option<Value>): Option<Option<string>> {
    match v
    case None => Some(None)
    case Some(Str(s)) => Some(Some(s))
    case Some(_) => None
  }

  function DecodeOptInt(v: Option<Value>): Option<Option<int>> {
    match v
    case None => Some(None)
    case Some(Number(Finite(i))) => Some(Some(i))
    case Some(_) => None
  }

  function DecodeStrings(items: seq<Value>): (r: Option<seq<string>>)
    ensures r.Some? ==> |r.value| == |items| && forall i :: 0 <= i < |items| ==> items[i] == Str(r.value[i])
  {
    if |items| == 0 then Some([])
    else if !items[0].Str? then None
    else match DecodeStrings(items[1..])
      case None => None
      case Some(rest) => Some([items[0].s] + rest)
  }

  function DecodeIdentifier(v: Option<Value>): Option<Identifier> {
    if v.Some? && v.value.Object? then
      var name := DecodeOptStr(Lookup(v.value.members, "machineName"));
      var ws := DecodeOptStr(Lookup(v.value.members, "workspaceId"));
      if name.Some? && ws.Some? then Some(Identifier(name.value, ws.value)) else None
    else None
  }

  function DecodeCreate(ms: seq<(string, Value)>): Option<Params> {
    var ident := DecodeIdentifier(Lookup(ms, "identifier"));
    var cmd := Lookup(ms, "cmd");
    var tty := Lookup(ms, "tty");
    var cwd := DecodeOptStr(Lookup(ms, "cwd"));
    var cols := DecodeInt(Lookup(ms, "cols"));
    var rows := DecodeInt(Lookup(ms, "rows"));
    if ident.Some? && cmd.Some? && cmd.value.Array? && tty.Some? && tty.value.Bool?
       && cwd.Some? && cols.Some? && rows.Some? then
      match DecodeStrings(cmd.value.items)
      case None => None
      case Some(words) => Some(CreateParams(ident.value, words, tty.value.b, cwd.value, cols.value, rows.value))
    else None
  }

  function DecodeResize(ms: seq<(string, Value)>): Option<Params> {
    var session := DecodeInt(Lookup(ms, "id"));
    var cols := DecodeOptInt(Lookup(ms, "cols"));
    var rows := DecodeOptInt(Lookup(ms, "rows"));
    if session.Some? && cols.Some? && rows.Some? then Some(ResizeParams(session.value, cols.value, rows.value))
    else None
  }

  function DecodeParams(name: string, p: Option<Value>): (r: Option<Params>)
    ensures r.Some? ==> MethodOf(r.value) == name
  {
    if name == "listContainers" && p == Some(Array([])) then Some(ListContainersParams)
    else if name == "create" && p.Some? && p.value.Object? then DecodeCreate(p.value.members)
    else if name == "resize" && p.Some? && p.value.Object? then DecodeResize(p.value.members)
    else None
  }

  /** Reads a request back from its JSON value; only well-formed JSON-RPC
      request objects are accepted. */
  function Decode(v: Value): (r: Option<Request>)
    ensures r.Some? ==> IsRequestObject(v)
  {
    if v.Object? && Lookup(v.members, "jsonrpc") == Some(Str(Version)) then
      var id := DecodeInt(Lookup(v.members, "id"));
      var m := Lookup(v.members, "method");
      if id.Some? && m.Some? && m.value.Str? then
        match DecodeParams(m.value.s, Lookup(v.members, "params"))
        case None => None
        case Some(p) => Some(Request(id.value, p))
      else None
    else None
  }

  lemma {:induction false} DecodeStringsRoundTrip(words: seq<string>)
    ensures DecodeStrings(Seqs.Map(words, (c: string) => Str(c))) == Some(words)
  {
    if |words| > 0 {
      var items := Seqs.Map(words, (c: string) => Str(c));
      assert items[1..] == Seqs.Map(words[1..], (c: string) => Str(c));
      DecodeStringsRoundTrip(words[1..]);
      assert [words[0]] + words[1..] == words;
    }
  }

  lemma WithOptLookup(ms: seq<(string, Value)>, key: string, v: Option<Value>, k: string)
    ensures Lookup(WithOpt(ms, key, v), k) == if key == k && v.Some? then v else Lookup(ms, k)
  {
  }

  /** What reading member `k` of an encoded identifier yields. */
  lemma IdentifierLookup(ident: Identifier, k: string)
    ensures Lookup(EncodeIdentifier(ident).members, k) ==
      if k == "workspaceId" && ident.workspaceId.Some? then Some(Str(ident.workspaceId.value))
      else if k == "machineName" && ident.machineName.Some? then Some(Str(ident.machineName.value))
      else None
  {
    var inner := WithOpt([], "machineName", OptStr(ident.machineName));
    WithOptLookup(inner, "workspaceId", OptStr(ident.workspaceId), k);
    WithOptLookup([], "machineName", OptStr(ident.machineName), k);
  }

  lemma IdentifierRoundTrip(ident: Identifier)
    ensures DecodeIdentifier(Some(EncodeIdentifier(ident))) == Some(ident)
  {
    assert "machineName"[0] != "workspaceId"[0];
    var ms := EncodeIdentifier(ident).members;
    IdentifierLookup(ident, "machineName");
    IdentifierLookup(ident, "workspaceId");
    assert DecodeOptStr(Lookup(ms, "machineName")) == Some(ident.machineName);
    assert DecodeOptStr(Lookup(ms, "workspaceId")) == Some(ident.workspaceId);
  }

  /** What reading member `k` of encoded create parameters yields: members are
      found by key whatever their position, and `cwd` only when it is set. */
  lemma CreateLookup(p: Params, k: string)
    requires p.CreateParams?
    ensures Lookup(EncodeParams(p).members, k) ==
      if k == "rows" then Some(IntValue(p.rows))
      else if k == "cols" then Some(IntValue(p.cols))
      else if k == "cwd" && p.cwd.Some? then Some(Str(p.cwd.value))
      else if k == "tty" then Some(Bool(p.tty))
      else if k == "cmd" then Some(Array(Seqs.Map(p.cmd, (c: string) => Str(c))))
      else if k == "identifier" then Some(EncodeIdentifier(p.identifier))
      else None
  {
    var a := [("identifier", EncodeIdentifier(p.identifier))];
    var b := a + [("cmd", Array(Seqs.Map(p.cmd, (c: string) => Str(c))))];
    var c := b + [("tty", Bool(p.tty))];
    var d := WithOpt(c, "cwd", OptStr(p.cwd));
    var e := d + [("cols", IntValue(p.cols))];
    assert EncodeParams(p).members == e + [("rows", IntValue(p.rows))];
    LookupSnoc(e, "rows", IntValue(p.rows), k);
    LookupSnoc(d, "cols", IntValue(p.cols), k);
    WithOptLookup(c, "cwd", OptStr(p.cwd), k);
    LookupSnoc(b, "tty", Bool(p.tty), k);
    LookupSnoc(a, "cmd", Array(Seqs.Map(p.cmd, (c: string) => Str(c))), k);
    assert a == [] + a;
    LookupSnoc([], "identifier", EncodeIdentifier(p.identifier), k);
  }

  /** The identifier, command and tty members decode to the fields they carry. */
  lemma CreateHeadFields(p: Params)
    requires p.CreateParams?
    ensures var ms := EncodeParams(p).members;
      && DecodeIdentifier(Lookup(ms, "identifier")) == Some(p.identifier)
      && Lookup(ms, "cmd") == Some(Array(Seqs.Map(p.cmd, (c: string) => Str(c))))
      && DecodeStrings(Seqs.Map(p.cmd, (c: string) => Str(c))) == Some(p.cmd)
      && Lookup(ms, "tty") == Some(Bool(p.tty))
  {
    // The keys are distinct: by length, or by the character shown.
    assert "cmd"[0] != "tty"[0] && "tty"[0] != "cwd"[0] && "cmd"[1] != "cwd"[1];
    CreateLookup(p, "identifier");
    CreateLookup(p, "cmd");
    CreateLookup(p, "tty");
    IdentifierRoundTrip(p.identifier);
    DecodeStringsRoundTrip(p.cmd);
  }

  /** The cwd, cols and rows members decode to the fields they carry. */
  lemma CreateTailFields(p: Params)
    requires p.CreateParams?
    ensures var ms := EncodeParams(p).members;
      && DecodeOptStr(Lookup(ms, "cwd")) == Some(p.cwd)
      && DecodeInt(Lookup(ms, "cols")) == Some(p.cols)
      && DecodeInt(Lookup(ms, "rows")) == Some(p.rows)
  {
    // The keys are distinct: by length, or by the character shown.
    assert "cols"[0] != "rows"[0];
    CreateLookup(p, "cwd");
    CreateLookup(p, "cols");
    CreateLookup(p, "rows");
  }

  lemma CreateRoundTrip(p: Params)
    requires p.CreateParams?
    ensures DecodeCreate(EncodeParams(p).members) == Some(p)
  {
    CreateHeadFields(p);
    CreateTailFields(p);
  }

  /** What reading member `k` of encoded resize parameters yields. */
  lemma ResizeLookup(p: Params, k: string)
    requires p.ResizeParams?
    ensures Lookup(EncodeParams(p).members, k) ==
      if k == "rows" && p.newRows.Some? then Some(IntValue(p.newRows.value))
      else if k == "cols" && p.newCols.Some? then Some(IntValue(p.newCols.value))
      else if k == "id" then Some(IntValue(p.session))
      else None
  {
    var a := [("id", IntValue(p.session))];
    var b := WithOpt(a, "cols", OptInt(p.newCols));
    assert EncodeParams(p).members == WithOpt(b, "rows", OptInt(p.newRows));
    WithOptLookup(b, "rows", OptInt(p.newRows), k);
    WithOptLookup(a, "cols", OptInt(p.newCols), k);
    assert a == [] + a;
    LookupSnoc([], "id", IntValue(p.session), k);
  }

  lemma ResizeRoundTrip(p: Params)
    requires p.ResizeParams?
    ensures DecodeResize(EncodeParams(p).members) == Some(p)
  {
    // The three keys are distinct: by length, or by the character shown.
    assert "cols"[0] != "rows"[0];
    var ms := EncodeParams(p).members;
    ResizeLookup(p, "id");
    ResizeLookup(p, "cols");
    ResizeLookup(p, "rows");
    assert DecodeInt(Lookup(ms, "id")) == Some(p.session);
    assert DecodeOptInt(Lookup(ms, "cols")) == Some(p.newCols);
    assert DecodeOptInt(Lookup(ms, "rows")) == Some(p.newRows);
  }

  /** What reading member `k` of an encoded request yields. */
  lemma EnvelopeLookup(r: Request, k: string)
    ensures Lookup(Encode(r).members, k) ==
      if k == "id" then Some(IntValue(r.id))
      else if k == "params" then Some(EncodeParams(r.params))
      else if k == "method" then Some(Str(MethodOf(r.params)))
      else if k == "jsonrpc" then Some(Str(Version))
      else None
  {
    var a := [("jsonrpc", Str(Version))];
    var b := a + [("method", Str(MethodOf(r.params)))];
    var c := b + [("params", EncodeParams(r.params))];
    assert Encode(r).members == c + [("id", IntValue(r.id))];
    LookupSnoc(c, "id", IntValue(r.id), k);
    LookupSnoc(b, "params", EncodeParams(r.params), k);
    LookupSnoc(a, "method", Str(MethodOf(r.params)), k);
    assert a == [] + a;
    LookupSnoc([], "jsonrpc", Str(Version), k);
  }

  lemma EnvelopeLookups(r: Request)
    ensures Lookup(Encode(r).members, "jsonrpc") == Some(Str(Version))
    ensures Lookup(Encode(r).members, "method") == Some(Str(MethodOf(r.params)))
    ensures Lookup(Encode(r).members, "params") == Some(EncodeParams(r.params))
    ensures Lookup(Encode(r).members, "id") == Some(IntValue(r.id))
  {
    // The four keys are distinct: by length, or by the character shown.
    assert "method"[0] != "params"[0];
    EnvelopeLookup(r, "jsonrpc");
    EnvelopeLookup(r, "method");
    EnvelopeLookup(r, "params");
    EnvelopeLookup(r, "id");
  }

  /** Every request the connector sends is a JSON-RPC 2.0 Request object. */
  lemma EncodeIsRequestObject(r: Request)
    ensures IsRequestObject(Encode(r))
    ensures Lookup(Encode(r).members, "id") == Some(Number(Finite(r.id)))
  {
    EnvelopeLookups(r);
  }

  /** Encoding loses nothing: the request can be read back from its value. */
  lemma EncodeRoundTrip(r: Request)
    ensures Decode(Encode(r)) == Some(r)
  {
    EnvelopeLookups(r);
    var ms := Encode(r).members;
    assert DecodeInt(Lookup(ms, "id")) == Some(r.id);
    // The method names are distinct: by length, or by the character shown.
    assert "create"[0] != "resize"[0];
    match r.params
    case ListContainersParams =>
    case CreateParams(_, _, _, _, _, _) =>
      CreateRoundTrip(r.params);
      assert DecodeParams("create", Some(EncodeParams(r.params))) == Some(r.params);
    case ResizeParams(_, _, _) =>
      ResizeRoundTrip(r.params);
      assert DecodeParams("resize", Some(EncodeParams(r.params))) == Some(r.params);
  }
}
