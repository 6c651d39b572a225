/** Identifier resolution for an element: the ordered lookup chain of
    UiDomElement.EvaluateIdentifierCore, and GetDeclaration.

    Resolution only reads the element and adds dependency edges, so it is modelled as a
    pure function of a snapshot of what it reads (an ElementView). Providers are opaque:
    each is a pair of functions giving, for an identifier, a value (possibly Undefined) and
    the dependency edges the provider recorded while answering. */
module Resolution {
  import opened UiDomValues

  /** A capability provider bound to one element: its early and late evaluators. */
  datatype Provider = Provider(early: string -> Lookup, late: string -> Lookup)

  /** What the application's EvaluateIdentifierHook does for an identifier: its result
      (None for null) and the dependency edges it added to depends_on either way. */
  datatype HookAnswer = HookAnswer(value: Option<Value>, deps: set<Edge>)

  /** What resolution reads from an element and its surroundings. */
  datatype ElementView = ElementView(
    self: ElemId,
    debugId: string,
    parent: Option<ElemId>,
    children: seq<ElemId>,
    siblings: seq<ElemId>,          // the parent's children ([] when there is no parent)
    indexInParent: int,             // what IndexInParent returns
    isRoot: bool,
    root: ElemId,
    local: seq<Provider>,
    global: seq<Provider>,
    hook: string -> HookAnswer,     // the application hook
    declarations: map<string, (Declaration, Value)>,
    assignedValues: map<string, Value>)

  /** Asks the providers in order, the early or the late evaluator, and stops at the first
      defined answer; the edges of every provider asked are kept. */
  function Consult(ps: seq<Provider>, late: bool, id: string): (r: Lookup)
    ensures r.value.Undefined? <==> forall k :: 0 <= k < |ps| ==> Ask(ps[k], late, id).value.Undefined?
    ensures !r.value.Undefined? ==>
      exists k :: 0 <= k < |ps| && r.value == Ask(ps[k], late, id).value &&
        forall j :: 0 <= j < k ==> Ask(ps[j], late, id).value.Undefined?
    decreases |ps|
  {
    if ps == [] then Lookup(Undefined, {})
    else
      var first := Ask(ps[0], late, id);
      if !first.value.Undefined? then first
      else
        var rest := Consult(ps[1..], late, id);
        assert forall k :: 1 <= k < |ps| ==> ps[k] == ps[1..][k - 1];
        Lookup(rest.value, first.deps + rest.deps)
  }

  function Ask(p: Provider, late: bool, id: string): Lookup {
    if late then p.late(id) else p.early(id)
  }

  function Dep(e: ElemId, name: string): Edge { (e, Identifier(name)) }

  /** First index of x in s, or -1 (List.IndexOf). */
  function IndexOf(s: seq<ElemId>, x: ElemId): (r: int)
    ensures -1 <= r < |s|
    ensures r >= 0 ==> s[r] == x && forall j :: 0 <= j < r ==> s[j] != x
    ensures r == -1 ==> x !in s
  {
    if s == [] then -1
    else if s[0] == x then 0
    else var r := IndexOf(s[1..], x); if r == -1 then -1 else r + 1
  }

  /** The entries of the built-in switch, by what they answer. */
  datatype BuiltinName =
    | This | ElementIdentifier
    | OwnRelationship(kind: RelationshipKind)        // a relationship rooted at the element
    | ParentRelationship(kind: RelationshipKind)     // a relationship rooted at the parent
    | SiblingRelationship(kind: RelationshipKind)    // a sibling relationship, needs a parent
    | FirstChildElement | LastChildElement
    | FirstSiblingElement | LastSiblingElement | NextSiblingElement | PreviousSiblingElement
    | ParentElement
    | IsRelationshipOf(relation: IsRelationshipKind)
    | IsRoot | Root | IndexInParent | ChildCount
    | BuiltinMethod                                   // a built-in method or singleton object

  /** The names the built-in switch handles. */
  const Builtins: map<string, BuiltinName> := map[
    "this" := This,
    "element_identifier" := ElementIdentifier,
    "this_or_ancestor_matches" := OwnRelationship(ThisOrAncestor),
    "this_or_descendent_matches" := OwnRelationship(ThisOrDescendent),
    "ancestor_matches" := OwnRelationship(Ancestor),
    "descendent_matches" := OwnRelationship(Descendent),
    "child_matches" := OwnRelationship(Child),
    "first_child_matches" := OwnRelationship(Child),
    "parent_matches" := OwnRelationship(Parent),
    "last_child_matches" := OwnRelationship(LastChild),
    "sibling_matches" := ParentRelationship(Child),
    "first_sibling_matches" := ParentRelationship(Child),
    "last_sibling_matches" := ParentRelationship(LastChild),
    "next_sibling_matches" := SiblingRelationship(NextSibling),
    "previous_sibling_matches" := SiblingRelationship(PreviousSibling),
    "first_child" := FirstChildElement,
    "last_child" := LastChildElement,
    "first_sibling" := FirstSiblingElement,
    "last_sibling" := LastSiblingElement,
    "next_sibling" := NextSiblingElement,
    "previous_sibling" := PreviousSiblingElement,
    "parent" := ParentElement,
    "is_child_of" := IsRelationshipOf(IsChild),
    "is_parent_of" := IsRelationshipOf(IsParent),
    "is_ancestor_of" := IsRelationshipOf(IsAncestor),
    "is_descendent_of" := IsRelationshipOf(IsDescendent),
    "is_sibling_of" := IsRelationshipOf(IsSibling),
    "is_root" := IsRoot,
    "root" := Root,
    "assign" := BuiltinMethod,
    "index_in_parent" := IndexInParent,
    "child_at_index" := BuiltinMethod,
    "child_count" := ChildCount,
    "repeat_action" := BuiltinMethod,
    "do_action" := BuiltinMethod,
    "map_directions" := BuiltinMethod,
    "adjust_scrollbars" := BuiltinMethod,
    "adjust_value" := BuiltinMethod,
    "radial_deadzone" := BuiltinMethod,
    "on_release" := BuiltinMethod,
    "wait" := BuiltinMethod,
    "enum" := BuiltinMethod,
    "hex" := BuiltinMethod,
    "environ" := BuiltinMethod
  ]

  /** The built-in switch. A built-in name always answers, possibly with Undefined, and
      resolution then stops there. */
  function Builtin(v: ElementView, id: string): (r: Option<Lookup>)
    ensures r.Some? <==> id in Builtins
  {
    if id in Builtins then Some(BuiltinAnswer(v, id, Builtins[id])) else None
  }

  /** The built-ins that are Undefined for an element without a parent. */
  predicate NeedsParent(b: BuiltinName) {
    b.ParentRelationship? || b.SiblingRelationship? || b.FirstSiblingElement? || b.LastSiblingElement? ||
    b.NextSiblingElement? || b.PreviousSiblingElement? || b.ParentElement? || b.IndexInParent?
  }

  function BuiltinAnswer(v: ElementView, id: string, b: BuiltinName): (r: Lookup)
    ensures b.FirstChildElement? || b.LastChildElement? || b.ChildCount? ==> r.deps == {Dep(v.self, "children")}
    ensures (b.FirstSiblingElement? || b.LastSiblingElement? || b.NextSiblingElement? || b.PreviousSiblingElement? || b.IndexInParent?) ==>
      r.deps == if v.parent.None? then {} else {Dep(v.parent.value, "children")}
    ensures v.parent.None? && NeedsParent(b) ==> r.value.Undefined?
  {
    var kids := {Dep(v.self, "children")};
    var siblings := if v.parent.None? then {} else {Dep(v.parent.value, "children")};
    var s := v.siblings;
    match b
    case This => Lookup(Element(v.self), {})
    case ElementIdentifier => Lookup(Str(v.debugId), {})
    case OwnRelationship(k) => Lookup(Relationship(v.self, k), {})
    case ParentRelationship(k) =>
      Lookup(if v.parent.None? then Undefined else Relationship(v.parent.value, k), {})
    case SiblingRelationship(k) =>
      Lookup(if v.parent.None? then Undefined else Relationship(v.self, k), {})
    case FirstChildElement => Lookup(if v.children == [] then Undefined else Element(v.children[0]), kids)
    case LastChildElement => Lookup(if v.children == [] then Undefined else Element(v.children[|v.children| - 1]), kids)
    case FirstSiblingElement =>
      Lookup(if v.parent.None? || s == [] then Undefined else Element(s[0]), siblings)
    case LastSiblingElement =>
      Lookup(if v.parent.None? || s == [] then Undefined else Element(s[|s| - 1]), siblings)
    case NextSiblingElement =>
      var i := IndexOf(s, v.self) + 1;
      Lookup(if v.parent.None? || i >= |s| then Undefined else Element(s[i]), siblings)
    case PreviousSiblingElement =>
      var i := IndexOf(s, v.self) - 1;
      Lookup(if v.parent.None? || i < 0 then Undefined else Element(s[i]), siblings)
    case ParentElement => Lookup(if v.parent.None? then Undefined else Element(v.parent.value), {})
    case IsRelationshipOf(k) => Lookup(IsRelationship(v.self, k), {})
    case IsRoot => Lookup(Bool(v.isRoot), {})
    case Root => Lookup(Element(v.root), {})
    case IndexInParent => Lookup(if v.parent.None? then Undefined else Int(v.indexInParent), siblings)
    case ChildCount => Lookup(Int(|v.children|), kids)
    case BuiltinMethod => Lookup(Method(id), {})
  }

  /** GetDeclaration: an active declaration with a defined value, else a defined assigned
      value, else Undefined. */
  function GetDeclaration(declarations: map<string, (Declaration, Value)>, assignedValues: map<string, Value>,
                          property: string): (r: Value)
    ensures !r.Undefined? ==>
      (property in declarations && r == declarations[property].1) ||
      (property in assignedValues && r == assignedValues[property] &&
       (property !in declarations || declarations[property].1.Undefined?))
    ensures property in declarations && !declarations[property].1.Undefined? ==> r == declarations[property].1
    ensures r.Undefined? <==>
      (property !in declarations || declarations[property].1.Undefined?) &&
      (property !in assignedValues || assignedValues[property].Undefined?)
  {
    if property in declarations && !declarations[property].1.Undefined? then declarations[property].1
    else if property in assignedValues && !assignedValues[property].Undefined? then assignedValues[property]
    else Undefined
  }

  // ----- AssignProperty -----

  /** The assigned values after an assignment, and whether PropertyChanged is raised. */
  datatype Assignment = Assignment(values: map<string, Value>, changed: bool)

  /** No name is assigned Undefined. */
  predicate NoUndefined(assignedValues: map<string, Value>) {
    forall n :: n in assignedValues ==> !assignedValues[n].Undefined?
  }

  /** AssignProperty as written: Undefined removes a present entry; otherwise a missing or
      different value is stored, so Undefined given for a name that has no entry is stored
      and announced. */
  function AssignAsWritten(assignedValues: map<string, Value>, name: string, v: Value): (r: Assignment)
    ensures r.changed <==> r.values != assignedValues
    ensures forall n :: n != name ==> (n in r.values <==> n in assignedValues)
    ensures forall n :: n != name && n in assignedValues ==> r.values[n] == assignedValues[n]
    ensures v.Undefined? && name in assignedValues ==> name !in r.values
    ensures !(v.Undefined? && name in assignedValues) ==> name in r.values && r.values[name] == v
  {
    if v.Undefined? && name in assignedValues then Assignment(assignedValues - {name}, true)
    else if name !in assignedValues || assignedValues[name] != v then Assignment(assignedValues[name := v], true)
    else Assignment(assignedValues, false)
  }

  /** As written, assigning Undefined to a name that was never assigned announces a change
      although GetDeclaration answers Undefined before and after, and leaves an entry that
      the next such assignment removes, announcing again. */
  lemma AssignUndefinedAnnouncesAsWritten(name: string)
    ensures var r := AssignAsWritten(map[], name, Undefined);
      r.changed && GetDeclaration(map[], r.values, name) == GetDeclaration(map[], map[], name) &&
      AssignAsWritten(r.values, name, Undefined).changed
  {
  }

  /** AssignProperty as evidently intended: Undefined only ever removes an entry. */
  function Assign(assignedValues: map<string, Value>, name: string, v: Value): (r: Assignment)
    ensures r.changed <==> r.values != assignedValues
    ensures forall n :: n != name ==> (n in r.values <==> n in assignedValues)
    ensures forall n :: n != name && n in assignedValues ==> r.values[n] == assignedValues[n]
    ensures v.Undefined? ==> name !in r.values
    ensures !v.Undefined? ==> name in r.values && r.values[name] == v
    ensures NoUndefined(assignedValues) ==> NoUndefined(r.values)
  {
    if v.Undefined? then
      if name in assignedValues then Assignment(assignedValues - {name}, true) else Assignment(assignedValues, false)
    else if name !in assignedValues || assignedValues[name] != v then Assignment(assignedValues[name := v], true)
    else Assignment(assignedValues, false)
  }

  /** The corrected assignment is what GetDeclaration then answers when no active declaration
      shadows the name, leaves every other name's answer alone, announces exactly when the
      assigned answer changes, and assigning the same value again announces nothing. */
  lemma AssignThenGet(declarations: map<string, (Declaration, Value)>, assignedValues: map<string, Value>,
                      name: string, v: Value)
    requires NoUndefined(assignedValues)
    ensures var r := Assign(assignedValues, name, v);
      (name !in declarations || declarations[name].1.Undefined? ==> GetDeclaration(declarations, r.values, name) == v) &&
      (forall p :: p != name ==> GetDeclaration(declarations, r.values, p) == GetDeclaration(declarations, assignedValues, p)) &&
      (r.changed <==> GetDeclaration(map[], r.values, name) != GetDeclaration(map[], assignedValues, name)) &&
      !Assign(r.values, name, v).changed
  {
    var r := Assign(assignedValues, name, v);
    forall p | p != name
      ensures GetDeclaration(declarations, r.values, p) == GetDeclaration(declarations, assignedValues, p)
    {
      assert (p in r.values) == (p in assignedValues);
    }
  }

  /** EvaluateIdentifierCore of UiDomElement. */
  function Resolve(v: ElementView, id: string): Lookup {
    var e1 := Consult(v.local, false, id);
    if !e1.value.Undefined? then e1
    else
      var e2 := Consult(v.global, false, id);
      if !e2.value.Undefined? then Lookup(e2.value, e1.deps + e2.deps)
      else
        var d := e1.deps + e2.deps;
        match Builtin(v, id)
        case Some(b) => Lookup(b.value, d + b.deps)
        case None =>
          var h := v.hook(id);
          if h.value.Some? then Lookup(h.value.value, d + h.deps)
          else
            var d' := d + h.deps + {Dep(v.self, id)};
            var g := GetDeclaration(v.declarations, v.assignedValues, id);
            if !g.Undefined? then Lookup(g, d')
            else
              var l1 := Consult(v.local, true, id);
              if !l1.value.Undefined? then Lookup(l1.value, d' + l1.deps)
              else
                var l2 := Consult(v.global, true, id);
                Lookup(l2.value, d' + l1.deps + l2.deps)
  }

  // ----- An independent statement of the chain: an ordered list of stages -----

  /** What each stage of the chain answers, in priority order; None means the stage passes
      the question on. Provider stages answer when they give a defined value; the built-in
      switch and the hook answer whenever they handle the name. */
  function Stages(v: ElementView, id: string): seq<Option<Value>> {
    var e1 := Consult(v.local, false, id);
    var e2 := Consult(v.global, false, id);
    var decl := if id in v.declarations && !v.declarations[id].1.Undefined? then Some(v.declarations[id].1) else None;
    var asg := if id in v.assignedValues && !v.assignedValues[id].Undefined? then Some(v.assignedValues[id]) else None;
    var l1 := Consult(v.local, true, id);
    var l2 := Consult(v.global, true, id);
    [ if e1.value.Undefined? then None else Some(e1.value),
      if e2.value.Undefined? then None else Some(e2.value),
      match Builtin(v, id) case Some(b) => Some(b.value) case None => None,
      v.hook(id).value,
      decl,
      asg,
      if l1.value.Undefined? then None else Some(l1.value),
      if l2.value.Undefined? then None else Some(l2.value) ]
  }

  /** The first stage that answers, or Undefined. */
  function FirstAnswer(stages: seq<Option<Value>>): (r: Value)
    ensures (forall k :: 0 <= k < |stages| ==> stages[k].None?) ==> r.Undefined?
    ensures forall k :: 0 <= k < |stages| && stages[k].Some? && (forall j :: 0 <= j < k ==> stages[j].None?) ==>
                r == stages[k].value
  {
    if stages == [] then Undefined
    else if stages[0].Some? then stages[0].value
    else
      assert forall k :: 1 <= k < |stages| ==> stages[k] == stages[1..][k - 1];
      FirstAnswer(stages[1..])
  }

  /** FirstAnswer of a list of eight stages, spelled out. */
  lemma FirstAnswerOfEight(s: seq<Option<Value>>)
    requires |s| == 8
    ensures FirstAnswer(s) ==
      if s[0].Some? then s[0].value else if s[1].Some? then s[1].value
      else if s[2].Some? then s[2].value else if s[3].Some? then s[3].value
      else if s[4].Some? then s[4].value else if s[5].Some? then s[5].value
      else if s[6].Some? then s[6].value else if s[7].Some? then s[7].value
      else Undefined
  {
    assert s[1..][1..][1..][1..][1..][1..][1..][1..] == [];
  }

  /** The chain answers exactly what its first answering stage says. */
  lemma ResolveIsFirstAnswer(v: ElementView, id: string)
    ensures Resolve(v, id).value == FirstAnswer(Stages(v, id))
  {
    FirstAnswerOfEight(Stages(v, id));
  }

  /** The element's own property (this, id) is recorded as a dependency exactly when the
      question gets past the providers' early evaluators, the built-in switch and the hook. */
  lemma ResolveRecordsOwnProperty(v: ElementView, id: string)
    requires Consult(v.local, false, id).value.Undefined?
    requires Consult(v.global, false, id).value.Undefined?
    requires id !in Builtins
    requires v.hook(id).value.None?
    ensures Dep(v.self, id) in Resolve(v, id).deps && v.hook(id).deps <= Resolve(v, id).deps
    ensures Resolve(v, id).value ==
      var g := GetDeclaration(v.declarations, v.assignedValues, id);
      if !g.Undefined? then g
      else if !Consult(v.local, true, id).value.Undefined? then Consult(v.local, true, id).value
      else Consult(v.global, true, id).value
  {
  }

  /** A built-in name is never answered from declarations, assignments or late providers,
      even when its built-in answer is Undefined. */
  lemma BuiltinShadowsDeclarations(v: ElementView, id: string,
                                   decls: map<string, (Declaration, Value)>, assignedValues: map<string, Value>)
    requires id in Builtins
    ensures Resolve(v.(declarations := decls, assignedValues := assignedValues), id) == Resolve(v, id)
  {
    var w := v.(declarations := decls, assignedValues := assignedValues);
    assert w.local == v.local && w.global == v.global && w.self == v.self;
    assert BuiltinAnswer(w, id, Builtins[id]) == BuiltinAnswer(v, id, Builtins[id]);
  }

  /** Consulting a provider list answers with the first provider that defines the name. */
  lemma {:induction false} ConsultFirstDefined(ps: seq<Provider>, late: bool, id: string, k: nat)
    requires k < |ps|
    requires !Ask(ps[k], late, id).value.Undefined?
    requires forall j :: 0 <= j < k ==> Ask(ps[j], late, id).value.Undefined?
    ensures Consult(ps, late, id).value == Ask(ps[k], late, id).value
    decreases k
  {
    if k > 0 {
      assert Ask(ps[0], late, id).value.Undefined?;
      assert forall j :: 0 <= j < k - 1 ==> ps[1..][j] == ps[j + 1];
      ConsultFirstDefined(ps[1..], late, id, k - 1);
    }
  }

  /** The early evaluators of local providers take precedence over everything else. */
  lemma LocalProviderFirst(v: ElementView, id: string, k: nat)
    requires k < |v.local|
    requires !v.local[k].early(id).value.Undefined?
    requires forall j :: 0 <= j < k ==> v.local[j].early(id).value.Undefined?
    ensures Resolve(v, id).value == v.local[k].early(id).value
  {
    ConsultFirstDefined(v.local, false, id, k);
  }
}
