/** `get_project_fields`: the field cache, keyed by field name. */
module ProjectFields {
  import opened Wrappers
  import opened Json
  import opened Models
  import opened Session

  const SingleSelectTypename: string := "ProjectV2SingleSelectField"

  /** jmespath `data.organization.projectV2.fields.nodes`. */
  const FieldNodesPath: seq<string> := ["data", "organization", "projectV2", "fields", "nodes"]

  /** One field node: `node['__typename']` chooses the record, which is then
      built from the whole node. */
  function ClassifyField(node: Json): (r: Result<Field>)
    ensures r.Success? <==>
      && node.JObj? && "__typename" in node.members
      && if node.members["__typename"] == JStr(SingleSelectTypename)
         then ParseSingleSelectField(node.members).Success?
         else ParseBaseField(node.members).Success?
    ensures r.Success? ==>
      && (r.value.SingleSelectProjectField? <==> node.members["__typename"] == JStr(SingleSelectTypename))
      && r.value.id == node.members["id"].s && r.value.name == node.members["name"].s
      && (r.value.SingleSelectProjectField? ==> ParseOptions(node.members["options"].elems) == Success(r.value.options))
    ensures node.JObj? && "__typename" !in node.members ==> r == Failure(KeyError("__typename"))
  {
    var typeName :- Index(node, "__typename");
    if typeName == JStr(SingleSelectTypename) then ParseSingleSelectField(node.members)
    else ParseBaseField(node.members)
  }

  /** A loop over a list that may stop on an exception: what it built so
      far, and the error that stopped it. */
  datatype Fold<T> = Fold(acc: T, error: Option<Error>)

  /** The loop body `cache[field_obj.name] = field_obj`, over the remaining
      nodes; the first node that cannot be built stops the loop, keeping the
      entries stored before it. */
  function RegisterFields(acc: map<string, Field>, nodes: seq<Json>): (r: Fold<map<string, Field>>)
    ensures acc.Keys <= r.acc.Keys
    decreases |nodes|
  {
    if nodes == [] then Fold(acc, None)
    else match ClassifyField(nodes[0])
      case Failure(e) => Fold(acc, Some(e))
      case Success(f) => RegisterFields(acc[f.name := f], nodes[1..])
  }

  /** Each field is stored under its own name: a cache keyed by name stays
      so, whether the loop completes or stops. */
  lemma {:induction false} RegisterFieldsKeyedByName(acc: map<string, Field>, nodes: seq<Json>)
    requires forall name :: name in acc ==> acc[name].name == name
    ensures var r := RegisterFields(acc, nodes).acc;
      forall name :: name in r ==> r[name].name == name
    decreases |nodes|
  {
    if nodes != [] && ClassifyField(nodes[0]).Success? {
      var f := ClassifyField(nodes[0]).value;
      assert RegisterFields(acc, nodes) == RegisterFields(acc[f.name := f], nodes[1..]);
      RegisterFieldsKeyedByName(acc[f.name := f], nodes[1..]);
    }
  }

  /** Every node built into its record, in order. */
  function ClassifyAll(nodes: seq<Json>): (r: Result<seq<Field>>)
    ensures r.Success? <==> forall i :: 0 <= i < |nodes| ==> ClassifyField(nodes[i]).Success?
    ensures r.Success? ==> |r.value| == |nodes| && forall i :: 0 <= i < |nodes| ==> ClassifyField(nodes[i]) == Success(r.value[i])
  {
    if nodes == [] then Success([])
    else
      var f :- ClassifyField(nodes[0]);
      var rest :- ClassifyAll(nodes[1..]);
      Success([f] + rest)
  }

  function Names(fs: seq<Field>): (r: seq<string>)
    ensures |r| == |fs| && forall i :: 0 <= i < |fs| ==> r[i] == fs[i].name
  {
    seq(|fs|, i requires 0 <= i < |fs| => fs[i].name)
  }

  /** Rebuilding the cache from nodes that all build: the loop ends without
      error, and every name ends up mapped to the last field of that name,
      the entries it started with surviving only under other names. */
  lemma {:induction false} RegisterFieldsLastWins(acc: map<string, Field>, nodes: seq<Json>)
    requires ClassifyAll(nodes).Success?
    ensures RegisterFields(acc, nodes).error == None
    ensures forall name ::
      var r := RegisterFields(acc, nodes).acc;
      var fs := ClassifyAll(nodes).value;
      && (name in r <==> name in Names(fs) || name in acc)
      && (name in r ==> r[name] == if name in Names(fs) then fs[LastIndex(Names(fs), name).value] else acc[name])
    decreases |nodes|
  {
    if nodes != [] {
      var fs := ClassifyAll(nodes).value;
      var f := fs[0];
      assert ClassifyField(nodes[0]) == Success(f);
      assert ClassifyAll(nodes[1..]).value == fs[1..];
      assert Names(fs[1..]) == Names(fs)[1..];
      RegisterFieldsLastWins(acc[f.name := f], nodes[1..]);
    }
  }

  /** Over nodes that do not all build, the loop ends with the error of the
      first node that does not build. */
  lemma {:induction false} RegisterFieldsStops(acc: map<string, Field>, nodes: seq<Json>)
    requires !ClassifyAll(nodes).Success?
    ensures RegisterFields(acc, nodes).error == Some(ClassifyAll(nodes).error)
    decreases |nodes|
  {
    if nodes != [] && ClassifyField(nodes[0]).Success? {
      var f := ClassifyField(nodes[0]).value;
      RegisterFieldsStops(acc[f.name := f], nodes[1..]);
    }
  }

  /** When node `k` is the first that does not build, the loop ends with its
      error, and the cache holds exactly what the nodes before it stored. */
  lemma {:induction false} RegisterFieldsStopsAt(acc: map<string, Field>, nodes: seq<Json>, k: nat)
    requires k < |nodes|
    requires forall j :: 0 <= j < k ==> ClassifyField(nodes[j]).Success?
    requires ClassifyField(nodes[k]).Failure?
    ensures RegisterFields(acc, nodes).error == Some(ClassifyField(nodes[k]).error)
    ensures RegisterFields(acc, nodes).acc == RegisterFields(acc, nodes[..k]).acc
    decreases k
  {
    if k > 0 {
      var f := ClassifyField(nodes[0]).value;
      assert nodes[1..][..k - 1] == nodes[..k][1..];
      RegisterFieldsStopsAt(acc[f.name := f], nodes[1..], k - 1);
    }
  }

  /** `get_project_fields(reload)`: a non-empty cache is returned as it is
      unless a reload is asked for; otherwise the cache is emptied, the
      fields query is sent, and the cache is rebuilt from the field nodes. */
  function LoadFields(s: Session, reload: bool): (r: Step<map<string, Field>>)
    ensures r.result.Success? ==> r.result.value == r.state.fields
    ensures r.state == s.(fields := r.state.fields, sent := r.state.sent, pending := r.state.pending)
    ensures |r.state.sent| + |r.state.pending| == |s.sent| + |s.pending|
  {
    if s.fields != map[] && !reload then Step(s, Success(s.fields))
    else
      var sent := Send(s.(fields := map[]), Request(FieldsQuery, BaseVariables(s.config)));
      match sent.result
      case Failure(e) => Step(sent.state, Failure(e))
      case Success(response) =>
        match Iterate(Search(FieldNodesPath, response), TypeError)
        case Failure(e) => Step(sent.state, Failure(e))
        case Success(nodes) =>
          var built := RegisterFields(map[], nodes);
          Step(sent.state.(fields := built.acc), if built.error.Some? then Failure(built.error.value) else Success(built.acc))
  }

  /** A non-empty cache answers without any request. */
  lemma FieldsCacheHit(s: Session)
    requires s.fields != map[]
    ensures LoadFields(s, false) == Step(s, Success(s.fields))
  {
  }

  /** Otherwise exactly one request goes out, the fields query with the base
      variables, and the cache is rebuilt from nothing: when every node
      builds, each name maps to the last field of that name, and that field
      is a single-select field exactly when its node says so. */
  lemma FieldsRebuilt(s: Session, reload: bool)
    requires reload || s.fields == map[]
    requires s.pending != []
    ensures var r := LoadFields(s, reload);
      && r.state.sent == s.sent + [Request(FieldsQuery, BaseVariables(s.config))]
      && r.state.pending == s.pending[1..]
    ensures var nodes := Iterate(Search(FieldNodesPath, s.pending[0]), TypeError);
      nodes.Success? && ClassifyAll(nodes.value).Success? ==>
      var r := LoadFields(s, reload);
      var fs := ClassifyAll(nodes.value).value;
      && r.result.Success?
      && (forall name :: name in r.state.fields <==> name in Names(fs))
      && (forall name :: name in r.state.fields ==> r.state.fields[name] == fs[LastIndex(Names(fs), name).value])
    ensures var nodes := Iterate(Search(FieldNodesPath, s.pending[0]), TypeError);
      nodes.Failure? || !ClassifyAll(nodes.value).Success? ==> LoadFields(s, reload).result.Failure?
  {
    var nodes := Iterate(Search(FieldNodesPath, s.pending[0]), TypeError);
    if nodes.Success? {
      if ClassifyAll(nodes.value).Success? {
        RegisterFieldsLastWins(map[], nodes.value);
      } else {
        RegisterFieldsStops(map[], nodes.value);
      }
    }
  }

  /** Node `k` is the first of `nodes` that does not build. */
  ghost predicate FirstFailing(nodes: seq<Json>, k: nat) {
    && k < |nodes|
    && (forall j :: 0 <= j < k ==> ClassifyField(nodes[j]).Success?)
    && ClassifyField(nodes[k]).Failure?
  }

  /** A rebuild that stops: when the answer has no node list, its error
      escapes; when node `k` is the first that does not build, its error
      escapes and the cache keeps what the nodes before it stored. */
  lemma FieldsRebuildStops(s: Session, reload: bool, k: nat)
    requires reload || s.fields == map[]
    requires s.pending != []
    ensures var nodes := Iterate(Search(FieldNodesPath, s.pending[0]), TypeError);
      nodes.Failure? ==> LoadFields(s, reload).result == Failure(nodes.error) && LoadFields(s, reload).state.fields == map[]
    ensures var nodes := Iterate(Search(FieldNodesPath, s.pending[0]), TypeError);
      nodes.Success? && FirstFailing(nodes.value, k) ==>
      && LoadFields(s, reload).result == Failure(ClassifyField(nodes.value[k]).error)
      && LoadFields(s, reload).state.fields == RegisterFields(map[], nodes.value[..k]).acc
  {
    var nodes := Iterate(Search(FieldNodesPath, s.pending[0]), TypeError);
    if nodes.Success? && FirstFailing(nodes.value, k) {
      RegisterFieldsStopsAt(map[], nodes.value, k);
    }
  }
}
