/** The machine-exec client's container directory: the devfile's declared
    container components, the running containers the server lists, and the
    containers offered to the user (running ones that are also declared). */
module ContainerDirectory {
  import opened Wrappers
  import opened JsValues
  import opened JsonRpc
  import Seqs

  /** Reserved request id that marks the reply to `listContainers`. */
  const ListContainersId: int := -5

  /** The request the client sends before reading the running list. */
  function ListContainersRequest(): (r: Request)
    ensures IsRequestObject(Encode(r))
    ensures Lookup(Encode(r).members, "method") == Some(Str("listContainers"))
    ensures Lookup(Encode(r).members, "params") == Some(Array([]))
    ensures Lookup(Encode(r).members, "id") == Some(Number(Finite(-5)))
  {
    var r := Request(ListContainersId, ListContainersParams);
    EnvelopeLookups(r);
    EncodeIsRequestObject(r);
    r
  }

  /** A devfile component that describes a container: its `container` entry is
      truthy. Volumes, plugins and the like have none. */
  predicate IsContainerComponent(c: Value) {
    Prop(c, "container") != None && Truthy(Prop(c, "container").value)
  }

  /** The component's `name`, read from a component that is not null. */
  function NameOf(c: Value): Value {
    Prop(c, "name").GetOr(Undefined)
  }

  /** The declared container names of a list of components, in list order. */
  function NamesOf(components: seq<Value>): seq<Value> {
    Seqs.Map(Seqs.Filter(components, IsContainerComponent), NameOf)
  }

  /** `(devfile.components || []).filter(c => c.container).map(c => c.name)`.
      None when that throws: the devfile itself is null or undefined, the
      component list is truthy but not an array, or one of its entries is null
      or undefined. */
  function DeclaredNames(devfile: Value): (r: Option<seq<Value>>)
    ensures Prop(devfile, "components").None? ==> r.None?
    ensures Prop(devfile, "components").Some? && !Truthy(Prop(devfile, "components").value) ==> r == Some([])
    ensures Prop(devfile, "components").Some? && !Prop(devfile, "components").value.Array? ==>
      (r.None? <==> Truthy(Prop(devfile, "components").value))
    ensures Prop(devfile, "components").Some? && Prop(devfile, "components").value.Array? ==>
      var items := Prop(devfile, "components").value.items;
      && (r.Some? <==> forall i :: 0 <= i < |items| ==> !IsNullish(items[i]))
      && (r.Some? ==> r.value == NamesOf(items))
  {
    match Prop(devfile, "components")
    case None => None
    case Some(components) =>
      if !Truthy(components) then Some([])
      else if !components.Array? then None
      else if exists i :: 0 <= i < |components.items| && IsNullish(components.items[i]) then None
      else Some(NamesOf(components.items))
  }

  /** Every declared name belongs to a container component, every container
      component contributes its name, and there are never more names than
      components. */
  lemma DeclaredNamesExact(components: seq<Value>, x: Value)
    ensures x in NamesOf(components) <==>
      exists c :: c in components && IsContainerComponent(c) && NameOf(c) == x
    ensures |NamesOf(components)| <= |components|
  {
    Seqs.MapFilterMembers(components, IsContainerComponent, NameOf, x);
  }

  /** Names come out in devfile order: the names of a concatenation are the
      names of the first part followed by those of the second, and a single
      component contributes its name exactly when it is a container. */
  lemma DeclaredNamesOrder(a: seq<Value>, b: seq<Value>, c: Value)
    ensures NamesOf(a + b) == NamesOf(a) + NamesOf(b)
    ensures NamesOf([c]) == if IsContainerComponent(c) then [NameOf(c)] else []
  {
    Seqs.FilterAppend(a, b, IsContainerComponent);
    Seqs.MapAppend(Seqs.Filter(a, IsContainerComponent), Seqs.Filter(b, IsContainerComponent), NameOf);
    assert [c][1..] == [];
  }

  /** The `container` field of an entry of the running list, read from an
      entry that is not null. */
  function ContainerOf(entry: Value): Value {
    Prop(entry, "container").GetOr(Undefined)
  }

  /** The listener on the single next frame after `listContainers` is sent.
      It accepts the frame only when its `id` is strictly equal to -5, and
      then maps each entry of `result` to its `container` field. None when the
      promise is never resolved: the id differs, or reading throws (a null
      frame, a `result` that is not an array, a null entry). */
  function ListReply(frame: Value): (r: Option<seq<Value>>)
    ensures r.Some? ==> Prop(frame, "id") == Some(Number(Finite(ListContainersId)))
    ensures r.Some? ==>
      exists entries :: Prop(frame, "result") == Some(Array(entries))
        && |r.value| == |entries|
        && forall i :: 0 <= i < |entries| ==> Prop(entries[i], "container") == Some(r.value[i])
    ensures Prop(frame, "id") == Some(Number(Finite(ListContainersId)))
      && Prop(frame, "result").Some? && Prop(frame, "result").value.Array?
      && (forall i :: 0 <= i < |Prop(frame, "result").value.items| ==> !IsNullish(Prop(frame, "result").value.items[i]))
      ==> r.Some?
  {
    match Prop(frame, "id")
    case None => None
    case Some(id) =>
      if id != Number(Finite(ListContainersId)) then None
      else match Prop(frame, "result")
        case Some(Array(entries)) =>
          if exists i :: 0 <= i < |entries| && IsNullish(entries[i]) then None
          else Some(Seqs.Map(entries, ContainerOf))
        case _ => None
  }

  /** `getContainers`: only the first frame that arrives after the request is
      examined (`once`). */
  function GetContainers(frames: seq<Value>): (r: Option<seq<Value>>)
    ensures |frames| == 0 ==> r.None?
    ensures |frames| > 0 ==> r == ListReply(frames[0])
  {
    if |frames| == 0 then None else ListReply(frames[0])
  }

  /** `runningContainers.filter(name => declared.includes(name))`. */
  function Contributed(declared: seq<Value>, running: seq<Value>): seq<Value> {
    Seqs.Filter(running, (x: Value) => Includes(declared, x))
  }

  /** The contributed containers are exactly the running containers the devfile
      declares, in running-list order with running-list multiplicities; none of
      them is undeclared, however the server reports it. */
  lemma ContributedExact(declared: seq<Value>, running: seq<Value>, x: Value)
    ensures x in Contributed(declared, running) <==> x in running && x in declared && IsPrimitive(x)
    ensures multiset(Contributed(declared, running))[x] ==
      if Includes(declared, x) then multiset(running)[x] else 0
    ensures Seqs.IsSubsequence(Contributed(declared, running), running)
    ensures |Contributed(declared, running)| <= |running|
  {
    var p := (y: Value) => Includes(declared, y);
    if x in running && x in declared && IsPrimitive(x) {
      var i :| 0 <= i < |declared| && declared[i] == x;
      assert SameValueZero(declared[i], x);
      Seqs.FilterKeeps(running, p, x);
    }
    Seqs.FilterCounts(running, p, x);
    Seqs.FilterIsSubsequence(running, p);
  }

  /** ContributedExact for every value at once. */
  lemma ContributedAll(declared: seq<Value>, running: seq<Value>)
    ensures forall x :: x in Contributed(declared, running) <==> x in running && x in declared && IsPrimitive(x)
    ensures forall x :: (multiset(Contributed(declared, running))[x] ==
                         if Includes(declared, x) then multiset(running)[x] else 0)
    ensures Seqs.IsSubsequence(Contributed(declared, running), running)
  {
    forall x {
      ContributedExact(declared, running, x);
    }
    Seqs.FilterIsSubsequence(running, (y: Value) => Includes(declared, y));
  }

  /** `getContributedContainers`: reads the devfile, then asks the server; None
      when either step throws or the reply never resolves. Otherwise the result
      is the running list with every undeclared entry removed. */
  function ContributedContainers(devfile: Value, frames: seq<Value>): (r: Option<seq<Value>>)
    ensures r.Some? <==> DeclaredNames(devfile).Some? && GetContainers(frames).Some?
    ensures r.Some? ==> Seqs.IsSubsequence(r.value, GetContainers(frames).value)
    ensures r.Some? ==> forall x :: x in r.value <==>
      x in GetContainers(frames).value && x in DeclaredNames(devfile).value && IsPrimitive(x)
    ensures r.Some? ==> forall x :: (multiset(r.value)[x] ==
      if Includes(DeclaredNames(devfile).value, x) then multiset(GetContainers(frames).value)[x] else 0)
  {
    match DeclaredNames(devfile)
    case None => None
    case Some(declared) =>
      match GetContainers(frames)
      case None => None
      case Some(running) => ContributedAll(declared, running); Some(Contributed(declared, running))
  }

  /** Whatever frame arrives first after the request is the one `once`
      examines: if it is not the reply to `listContainers` (a notification such
      as `onExecExit`, or the reply to another request), the list is never
      delivered, even when the matching reply follows. */
  lemma NotificationBeforeReplyStarves(first: Value, rest: seq<Value>)
    requires Prop(first, "id") != Some(Number(Finite(ListContainersId)))
    ensures GetContainers([first] + rest) == None
  {
  }

  /** A devfile component named `name` whose only other entry is `kind`. */
  function ExampleComponent(name: string, kind: string): Value {
    Object([("name", Str(name))] + [(kind, Object([]))])
  }

  lemma ExampleComponentFacts(name: string, kind: string)
    requires kind != "name"
    ensures NameOf(ExampleComponent(name, kind)) == Str(name)
    ensures IsContainerComponent(ExampleComponent(name, kind)) <==> kind == "container"
  {
    LookupSnoc([("name", Str(name))], kind, Object([]), "name");
    LookupSnoc([("name", Str(name))], kind, Object([]), "container");
    LookupSnoc([], "name", Str(name), "name");
    LookupSnoc([], "name", Str(name), "container");
    assert [] + [("name", Str(name))] == [("name", Str(name))];
  }

  /** A devfile declaring `app` and `db` as containers and `gw` as a plugin. */
  function ExampleDevfile(app: string, db: string, gw: string): Value {
    Object([("components", Array([ExampleComponent(app, "container"), ExampleComponent(db, "container"),
                                  ExampleComponent(gw, "plugin")]))])
  }

  /** The reply to `listContainers` from a server running `app`, `gw` and `db`. */
  function ExampleReply(app: string, db: string, gw: string): Value {
    Object([("id", Number(Finite(-5)))] + [("result", Array([
      Object([("container", Str(app))]),
      Object([("container", Str(gw))]),
      Object([("container", Str(db))])]))])
  }

  /** Two containers followed by a non-container contribute the two names. */
  lemma NamesOfThree(a: Value, d: Value, g: Value)
    requires IsContainerComponent(a) && IsContainerComponent(d) && !IsContainerComponent(g)
    ensures NamesOf([a, d, g]) == [NameOf(a), NameOf(d)]
  {
    assert [a, d, g][1..] == [d, g] && [d, g][1..] == [g] && [g][1..] == [];
    assert Seqs.Filter([g], IsContainerComponent) == [];
    assert Seqs.Filter([d, g], IsContainerComponent) == [d];
    assert Seqs.Filter([a, d, g], IsContainerComponent) == [a, d];
    var names := NamesOf([a, d, g]);
    assert |names| == 2 && names[0] == NameOf(a) && names[1] == NameOf(d);
  }

  lemma ExampleNames(app: string, db: string, gw: string)
    ensures NamesOf([ExampleComponent(app, "container"), ExampleComponent(db, "container"),
                     ExampleComponent(gw, "plugin")]) == [Str(app), Str(db)]
  {
    ExampleComponentFacts(app, "container");
    ExampleComponentFacts(db, "container");
    ExampleComponentFacts(gw, "plugin");
    NamesOfThree(ExampleComponent(app, "container"), ExampleComponent(db, "container"),
                 ExampleComponent(gw, "plugin"));
  }

  lemma ExampleDeclared(app: string, db: string, gw: string)
    ensures DeclaredNames(ExampleDevfile(app, db, gw)) == Some([Str(app), Str(db)])
  {
    var comps := [ExampleComponent(app, "container"), ExampleComponent(db, "container"),
                  ExampleComponent(gw, "plugin")];
    assert Prop(ExampleDevfile(app, db, gw), "components") == Some(Array(comps));
    assert forall i :: 0 <= i < |comps| ==> comps[i].Object?;
    ExampleNames(app, db, gw);
  }

  lemma ExampleEntries(app: string, db: string, gw: string)
    ensures Seqs.Map([Object([("container", Str(app))]), Object([("container", Str(gw))]),
                      Object([("container", Str(db))])], ContainerOf) == [Str(app), Str(gw), Str(db)]
  {
    var running := Seqs.Map([Object([("container", Str(app))]), Object([("container", Str(gw))]),
                             Object([("container", Str(db))])], ContainerOf);
    assert running[0] == Str(app) && running[1] == Str(gw) && running[2] == Str(db);
  }

  lemma ExampleRunning(app: string, db: string, gw: string)
    ensures ListReply(ExampleReply(app, db, gw)) == Some([Str(app), Str(gw), Str(db)])
  {
    var entries := [Object([("container", Str(app))]), Object([("container", Str(gw))]),
                    Object([("container", Str(db))])];
    LookupSnoc([("id", Number(Finite(-5)))], "result", Array(entries), "id");
    LookupSnoc([("id", Number(Finite(-5)))], "result", Array(entries), "result");
    assert Prop(ExampleReply(app, db, gw), "id") == Some(Number(Finite(-5)));
    assert Prop(ExampleReply(app, db, gw), "result") == Some(Array(entries));
    assert forall i :: 0 <= i < |entries| ==> entries[i].Object?;
    ExampleEntries(app, db, gw);
  }

  lemma ExampleFiltered(app: string, db: string, gw: string)
    requires gw != app && gw != db
    ensures Contributed([Str(app), Str(db)], [Str(app), Str(gw), Str(db)]) == [Str(app), Str(db)]
  {
    var declared := [Str(app), Str(db)];
    var running := [Str(app), Str(gw), Str(db)];
    assert Includes(declared, Str(app)) by { assert SameValueZero(declared[0], Str(app)); }
    assert Includes(declared, Str(db)) by { assert SameValueZero(declared[1], Str(db)); }
    assert !Includes(declared, Str(gw));
    var p := (x: Value) => Includes(declared, x);
    assert running[1..] == [Str(gw), Str(db)];
    assert running[1..][1..] == [Str(db)];
    assert [Str(db)][1..] == [];
    assert Seqs.Filter([Str(db)], p) == [Str(db)];
    assert Seqs.Filter([Str(gw), Str(db)], p) == [Str(db)];
    assert Seqs.Filter(running, p) == [Str(app)] + [Str(db)];
  }

  /** A devfile declaring `app` and `db` as containers and a gateway under
      another name as a plugin, and a server that reports all three running:
      the user is offered `app` and `db`, in the server's order. */
  lemma GatewayIsNotOffered(app: string, db: string, gw: string)
    requires gw != app && gw != db
    ensures ContributedContainers(ExampleDevfile(app, db, gw), [ExampleReply(app, db, gw)]) == Some([Str(app), Str(db)])
  {
    ExampleDeclared(app, db, gw);
    ExampleRunning(app, db, gw);
    ExampleFiltered(app, db, gw);
  }
}
