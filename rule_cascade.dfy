/** The rule cascade of an element: the block scan of EvaluateRules and the declaration diff
    of DeclarationsChanged.

    Expression evaluation (the rule language's interpreter) is a parameter: `eval` maps an
    expression to its value on the element together with the dependency edges it read. */
module RuleCascade {
  import opened UiDomValues

  type Declarations = map<string, (Declaration, Value)>

  /** The scan's running state: the properties resolved so far, the edges read and whether
      a truthy `stop` has been seen. */
  datatype ScanState = ScanState(active: Declarations, deps: set<Edge>, stop: bool)

  const Start: ScanState := ScanState(map[], {}, false)

  /** Whether a block could contribute: it declares `stop` or an unresolved property. */
  predicate AnyNew(ds: seq<Declaration>, active: Declarations) {
    exists j :: 0 <= j < |ds| && (ds[j].property == "stop" || ds[j].property !in active)
  }

  /** The declarations of a matching block, from index j on: resolved properties other than
      `stop` are left alone, the others are evaluated and recorded. */
  function DeclareFrom(st: ScanState, ds: seq<Declaration>, j: nat, eval: Expr -> Lookup): ScanState
    requires j <= |ds|
    decreases |ds| - j
  {
    if j == |ds| then st
    else
      var d := ds[j];
      if d.property in st.active && d.property != "stop" then DeclareFrom(st, ds, j + 1, eval)
      else
        DeclareFrom(Record(st, d, eval), ds, j + 1, eval)
  }

  /** Evaluating one declaration and recording its value; a truthy `stop` sets the flag. */
  function Record(st: ScanState, d: Declaration, eval: Expr -> Lookup): ScanState {
    var l := eval(d.value);
    ScanState(st.active[d.property := (d, l.value)], st.deps + l.deps,
              st.stop || (d.property == "stop" && ToBool(l.value)))
  }

  /** One block of the scan. */
  function Block1(st: ScanState, b: Block, eval: Expr -> Lookup): ScanState {
    if !AnyNew(b.declarations, st.active) then st
    else match b.condition
      case None => DeclareFrom(st, b.declarations, 0, eval)
      case Some(c) =>
        var l := eval(c);
        var st' := st.(deps := st.deps + l.deps);
        if !ToBool(l.value) then st' else DeclareFrom(st', b.declarations, 0, eval)
  }

  /** The scan from block i on; it ends after the block that set `stop`. */
  function Scan(rules: seq<Block>, i: nat, st: ScanState, eval: Expr -> Lookup): ScanState
    requires i <= |rules|
    decreases |rules| - i
  {
    if i == |rules| || st.stop then st
    else Scan(rules, i + 1, Block1(st, rules[i], eval), eval)
  }

  /** The scan of the whole sheet. */
  function Cascade(rules: seq<Block>, eval: Expr -> Lookup): ScanState {
    Scan(rules, 0, Start, eval)
  }

  /** The block-scanning loop of EvaluateRules. */
  method EvaluateCascade(rules: seq<Block>, eval: Expr -> Lookup)
      returns (active: Declarations, deps: set<Edge>)
    ensures active == Cascade(rules, eval).active
    ensures deps == Cascade(rules, eval).deps
  {
    active := map[];
    deps := {};
    var stop := false;
    var i := 0;
    while i < |rules|
      invariant 0 <= i <= |rules|
      invariant !stop
      invariant Scan(rules, i, ScanState(active, deps, stop), eval) == Cascade(rules, eval)
      decreases |rules| - i
    {
      var b := rules[i];
      var anyNew := false;
      var j := 0;
      while j < |b.declarations|
        invariant 0 <= j <= |b.declarations|
        invariant !anyNew ==> forall k :: 0 <= k < j ==>
          b.declarations[k].property != "stop" && b.declarations[k].property in active
        invariant anyNew ==> AnyNew(b.declarations, active)
        decreases |b.declarations| - j
      {
        var p := b.declarations[j].property;
        if p == "stop" || p !in active {
          anyNew := true;
          break;
        }
        j := j + 1;
      }
      assert anyNew == AnyNew(b.declarations, active);
      var matched := anyNew;
      if anyNew && b.condition.Some? {
        var c := eval(b.condition.value);
        deps := deps + c.deps;
        matched := ToBool(c.value);
      }
      if matched {
        var st := ScanState(active, deps, stop);
        j := 0;
        while j < |b.declarations|
          invariant 0 <= j <= |b.declarations|
          invariant DeclareFrom(ScanState(active, deps, stop), b.declarations, j, eval) ==
                    DeclareFrom(st, b.declarations, 0, eval)
          decreases |b.declarations| - j
        {
          var d := b.declarations[j];
          if !(d.property in active && d.property != "stop") {
            var v := eval(d.value);
            deps := deps + v.deps;
            if d.property == "stop" && ToBool(v.value) {
              stop := true;
            }
            active := active[d.property := (d, v.value)];
          }
          j := j + 1;
        }
      }
      i := i + 1;
      if stop {
        break;
      }
    }
  }

  // ----- Properties of the scan -----

  /** Within a block, a resolved property other than `stop` keeps its declaration and value,
      resolved properties stay resolved, edges are only added and `stop` is never cleared. */
  lemma {:induction false} DeclareKeeps(st: ScanState, ds: seq<Declaration>, j: nat, eval: Expr -> Lookup)
    requires j <= |ds|
    ensures var r := DeclareFrom(st, ds, j, eval);
      st.active.Keys <= r.active.Keys && st.deps <= r.deps && (st.stop ==> r.stop) &&
      forall p :: p in st.active && p != "stop" ==> r.active[p] == st.active[p]
    decreases |ds| - j
  {
    if j < |ds| {
      var d := ds[j];
      if d.property in st.active && d.property != "stop" {
        DeclareKeeps(st, ds, j + 1, eval);
      } else {
        DeclareKeeps(Record(st, d, eval), ds, j + 1, eval);
      }
    }
  }

  /** First match wins over the whole scan: a property other than `stop` that is resolved
      is never overwritten by a later block. */
  lemma {:induction false} ScanKeeps(rules: seq<Block>, i: nat, st: ScanState, eval: Expr -> Lookup)
    requires i <= |rules|
    ensures var r := Scan(rules, i, st, eval);
      st.active.Keys <= r.active.Keys && st.deps <= r.deps &&
      forall p :: p in st.active && p != "stop" ==> r.active[p] == st.active[p]
    decreases |rules| - i
  {
    if i < |rules| && !st.stop {
      var b := rules[i];
      var st1 := Block1(st, b, eval);
      if AnyNew(b.declarations, st.active) {
        match b.condition
        case None => DeclareKeeps(st, b.declarations, 0, eval);
        case Some(c) =>
          var st' := st.(deps := st.deps + eval(c).deps);
          DeclareKeeps(st', b.declarations, 0, eval);
      }
      ScanKeeps(rules, i + 1, st1, eval);
    }
  }

  /** Every resolved property is resolved by one of the block's declarations of that
      property, with that declaration's value. */
  predicate Sound(st: ScanState, decls: set<Declaration>, eval: Expr -> Lookup) {
    forall p :: p in st.active ==>
      st.active[p].0 in decls && st.active[p].0.property == p && st.active[p].1 == eval(st.active[p].0.value).value
  }

  /** The declarations of a sheet. */
  function SheetDeclarations(rules: seq<Block>): set<Declaration> {
    set i, j | 0 <= i < |rules| && 0 <= j < |rules[i].declarations| :: rules[i].declarations[j]
  }

  lemma {:induction false} DeclareSound(st: ScanState, ds: seq<Declaration>, j: nat, decls: set<Declaration>,
                                        eval: Expr -> Lookup)
    requires j <= |ds|
    requires forall k :: 0 <= k < |ds| ==> ds[k] in decls
    requires Sound(st, decls, eval)
    ensures Sound(DeclareFrom(st, ds, j, eval), decls, eval)
    decreases |ds| - j
  {
    if j < |ds| {
      var d := ds[j];
      if d.property in st.active && d.property != "stop" {
        DeclareSound(st, ds, j + 1, decls, eval);
      } else {
        DeclareSound(Record(st, d, eval), ds, j + 1, decls, eval);
      }
    }
  }

  lemma {:induction false} ScanSound(rules: seq<Block>, i: nat, st: ScanState, eval: Expr -> Lookup)
    requires i <= |rules|
    requires Sound(st, SheetDeclarations(rules), eval)
    ensures Sound(Scan(rules, i, st, eval), SheetDeclarations(rules), eval)
    decreases |rules| - i
  {
    if i < |rules| && !st.stop {
      var b := rules[i];
      var decls := SheetDeclarations(rules);
      assert forall k :: 0 <= k < |b.declarations| ==> b.declarations[k] in decls;
      if AnyNew(b.declarations, st.active) {
        match b.condition
        case None => DeclareSound(st, b.declarations, 0, decls, eval);
        case Some(c) =>
          var st' := st.(deps := st.deps + eval(c).deps);
          DeclareSound(st', b.declarations, 0, decls, eval);
      }
      ScanSound(rules, i + 1, Block1(st, b, eval), eval);
    }
  }

  /** Soundness of the cascade: each active declaration is a declaration of the sheet for
      that property, and its recorded value is the value of its expression. */
  lemma CascadeSound(rules: seq<Block>, eval: Expr -> Lookup)
    ensures Sound(Cascade(rules, eval), SheetDeclarations(rules), eval)
  {
    ScanSound(rules, 0, Start, eval);
  }

  /** The evaluator reads properties of the elements of keys only. */
  ghost predicate ReadsWithin(eval: Expr -> Lookup, keys: set<ElemId>) {
    forall ex: Expr, d: Edge :: d in eval(ex).deps ==> d.0 in keys
  }

  lemma {:induction false} DeclareWithin(st: ScanState, ds: seq<Declaration>, j: nat, eval: Expr -> Lookup,
                                         keys: set<ElemId>)
    requires j <= |ds| && ReadsWithin(eval, keys) && forall d :: d in st.deps ==> d.0 in keys
    ensures forall d :: d in DeclareFrom(st, ds, j, eval).deps ==> d.0 in keys
    decreases |ds| - j
  {
    if j < |ds| {
      var d := ds[j];
      if d.property in st.active && d.property != "stop" {
        DeclareWithin(st, ds, j + 1, eval, keys);
      } else {
        DeclareWithin(Record(st, d, eval), ds, j + 1, eval, keys);
      }
    }
  }

  lemma {:induction false} ScanWithin(rules: seq<Block>, i: nat, st: ScanState, eval: Expr -> Lookup, keys: set<ElemId>)
    requires i <= |rules| && ReadsWithin(eval, keys) && forall d :: d in st.deps ==> d.0 in keys
    ensures forall d :: d in Scan(rules, i, st, eval).deps ==> d.0 in keys
    decreases |rules| - i
  {
    if i < |rules| && !st.stop {
      var b := rules[i];
      if AnyNew(b.declarations, st.active) {
        match b.condition
        case None => DeclareWithin(st, b.declarations, 0, eval, keys);
        case Some(c) =>
          var st' := st.(deps := st.deps + eval(c).deps);
          DeclareWithin(st', b.declarations, 0, eval, keys);
      }
      ScanWithin(rules, i + 1, Block1(st, b, eval), eval, keys);
    }
  }

  /** The cascade depends only on properties the evaluator read. */
  lemma CascadeWithin(rules: seq<Block>, eval: Expr -> Lookup, keys: set<ElemId>)
    requires ReadsWithin(eval, keys)
    ensures forall d :: d in Cascade(rules, eval).deps ==> d.0 in keys
  {
    ScanWithin(rules, 0, Start, eval, keys);
  }

  /** A block whose condition holds declares each of its properties for the element, unless
      `stop` ended the scan before it. */
  lemma {:induction false} DeclareResolves(st: ScanState, ds: seq<Declaration>, j: nat, k: nat, eval: Expr -> Lookup)
    requires j <= k < |ds|
    ensures ds[k].property in DeclareFrom(st, ds, j, eval).active
    decreases |ds| - j
  {
    var d := ds[j];
    var next := if d.property in st.active && d.property != "stop" then st else Record(st, d, eval);
    if j == k {
      DeclareKeeps(next, ds, j + 1, eval);
    } else {
      DeclareResolves(next, ds, j + 1, k, eval);
    }
  }

  /** A block reached by the scan whose condition is absent or truthy resolves every
      property it declares; resolved properties stay resolved to the end. */
  lemma MatchingBlockResolves(rules: seq<Block>, i: nat, st: ScanState, k: nat, eval: Expr -> Lookup)
    requires i < |rules| && !st.stop
    requires k < |rules[i].declarations|
    requires rules[i].condition.None? || ToBool(eval(rules[i].condition.value).value)
    ensures rules[i].declarations[k].property in Scan(rules, i, st, eval).active
  {
    var b := rules[i];
    var p := b.declarations[k].property;
    var st1 := Block1(st, b, eval);
    if AnyNew(b.declarations, st.active) {
      match b.condition
      case None => DeclareResolves(st, b.declarations, 0, k, eval);
      case Some(c) => DeclareResolves(st.(deps := st.deps + eval(c).deps), b.declarations, 0, k, eval);
    } else {
      assert p in st.active;
    }
    assert p in st1.active;
    ScanKeeps(rules, i + 1, st1, eval);
  }

  /** Declarations from j on that declare no `stop` leave the recorded `stop` alone. */
  lemma {:induction false} DeclareKeepsStop(st: ScanState, ds: seq<Declaration>, j: nat, eval: Expr -> Lookup)
    requires j <= |ds| && "stop" in st.active
    requires forall m :: j <= m < |ds| ==> ds[m].property != "stop"
    ensures var r := DeclareFrom(st, ds, j, eval); "stop" in r.active && r.active["stop"] == st.active["stop"]
    decreases |ds| - j
  {
    if j < |ds| {
      var d := ds[j];
      if d.property in st.active && d.property != "stop" {
        DeclareKeepsStop(st, ds, j + 1, eval);
      } else {
        DeclareKeepsStop(Record(st, d, eval), ds, j + 1, eval);
      }
    }
  }

  /** Within a block, the last `stop` declaration is always evaluated and recorded, even
      when `stop` was resolved by an earlier block. */
  lemma {:induction false} DeclareRecordsStop(st: ScanState, ds: seq<Declaration>, j: nat, k: nat, eval: Expr -> Lookup)
    requires j <= k < |ds| && ds[k].property == "stop"
    requires forall m :: k < m < |ds| ==> ds[m].property != "stop"
    ensures var r := DeclareFrom(st, ds, j, eval);
      "stop" in r.active && r.active["stop"] == (ds[k], eval(ds[k].value).value)
    decreases |ds| - j
  {
    var d := ds[j];
    var next := if d.property in st.active && d.property != "stop" then st else Record(st, d, eval);
    if j == k {
      DeclareKeepsStop(next, ds, j + 1, eval);
    } else {
      DeclareRecordsStop(next, ds, j + 1, k, eval);
    }
  }

  /** `stop` is re-evaluated in every matching block: a block reached by the scan whose
      condition is absent or truthy and that declares `stop` records the value of its last
      `stop` declaration, and a truthy one ends the scan after the block. */
  lemma MatchingBlockRecordsStop(rules: seq<Block>, i: nat, st: ScanState, k: nat, eval: Expr -> Lookup)
    requires i < |rules| && !st.stop
    requires k < |rules[i].declarations| && rules[i].declarations[k].property == "stop"
    requires forall m :: k < m < |rules[i].declarations| ==> rules[i].declarations[m].property != "stop"
    requires rules[i].condition.None? || ToBool(eval(rules[i].condition.value).value)
    ensures var r := Block1(st, rules[i], eval); var d := rules[i].declarations[k];
      "stop" in r.active && r.active["stop"] == (d, eval(d.value).value) &&
      (ToBool(eval(d.value).value) ==> r.stop && Scan(rules, i + 1, r, eval) == r)
  {
    var b := rules[i];
    assert AnyNew(b.declarations, st.active);
    var st' := match b.condition case None => st case Some(c) => st.(deps := st.deps + eval(c).deps);
    assert Block1(st, b, eval) == DeclareFrom(st', b.declarations, 0, eval);
    DeclareRecordsStop(st', b.declarations, 0, k, eval);
    DeclareKeeps(st', b.declarations, 0, eval);
    if ToBool(eval(b.declarations[k].value).value) {
      StopFlag(st', b.declarations, 0, k, eval);
    }
  }

  /** Recording a truthy last `stop` leaves the flag set. */
  lemma {:induction false} StopFlag(st: ScanState, ds: seq<Declaration>, j: nat, k: nat, eval: Expr -> Lookup)
    requires j <= k < |ds| && ds[k].property == "stop" && ToBool(eval(ds[k].value).value)
    ensures DeclareFrom(st, ds, j, eval).stop
    decreases |ds| - j
  {
    var d := ds[j];
    var next := if d.property in st.active && d.property != "stop" then st else Record(st, d, eval);
    if j == k {
      DeclareKeeps(next, ds, j + 1, eval);
    } else {
      StopFlag(next, ds, j + 1, k, eval);
    }
  }

  /** Once `stop` is set, blocks after it are never looked at: appending blocks to a sheet
      whose scan stopped changes nothing. */
  lemma {:induction false} StopEndsScan(rules: seq<Block>, more: seq<Block>, i: nat, st: ScanState, eval: Expr -> Lookup)
    requires i <= |rules|
    requires Scan(rules, i, st, eval).stop
    ensures Scan(rules + more, i, st, eval) == Scan(rules, i, st, eval)
    decreases |rules| - i
  {
    if i < |rules| && !st.stop {
      assert (rules + more)[i] == rules[i];
      StopEndsScan(rules, more, i + 1, Block1(st, rules[i], eval), eval);
    }
  }

  /** A block that declares only properties already resolved, none of them `stop`, is
      passed over without its condition being evaluated: it reads nothing and leaves the
      resolved properties and the stop flag as they were. */
  lemma ResolvedBlockSkipped(rules: seq<Block>, i: nat, st: ScanState, eval: Expr -> Lookup)
    requires i < |rules| && !st.stop
    requires forall j :: 0 <= j < |rules[i].declarations| ==>
      rules[i].declarations[j].property != "stop" && rules[i].declarations[j].property in st.active
    ensures Block1(st, rules[i], eval) == st
    ensures Scan(rules, i, st, eval) == Scan(rules, i + 1, st, eval)
  {
    assert !AnyNew(rules[i].declarations, st.active);
  }

  /** A block whose condition is falsy declares nothing: the scan goes on with the same
      resolved properties and stop flag, adding only what the condition read, and that only
      when the block could have contributed (otherwise the condition is not evaluated). */
  lemma FalsyBlockSkipped(rules: seq<Block>, i: nat, st: ScanState, c: Expr, eval: Expr -> Lookup)
    requires i < |rules| && !st.stop
    requires rules[i].condition == Some(c) && !ToBool(eval(c).value)
    ensures var read := if AnyNew(rules[i].declarations, st.active) then eval(c).deps else {};
      Block1(st, rules[i], eval) == st.(deps := st.deps + read) &&
      Scan(rules, i, st, eval) == Scan(rules, i + 1, st.(deps := st.deps + read), eval)
  {
    if !AnyNew(rules[i].declarations, st.active) {
      assert st.deps + {} == st.deps;
    }
  }

  /** The first-match scenario: with the sheet
        [ role == "button" -> {label: "clicked", stop: true}, (no condition) -> {label: "default"} ]
      an element whose condition holds resolves label to "clicked", any other to "default". */
  lemma ButtonScenario(cond: Expr, clicked: Expr, stopExpr: Expr, default: Expr, eval: Expr -> Lookup)
    requires eval(clicked).value == Str("clicked") && eval(default).value == Str("default")
    requires eval(stopExpr).value == Bool(true)
    ensures var rules := [
              Block(Some(cond), [Declaration("label", clicked, 0), Declaration("stop", stopExpr, 1)]),
              Block(None, [Declaration("label", default, 2)])];
            var r := Cascade(rules, eval);
            "label" in r.active &&
            r.active["label"].1 == (if ToBool(eval(cond).value) then Str("clicked") else Str("default"))
  {
    var rules := [
      Block(Some(cond), [Declaration("label", clicked, 0), Declaration("stop", stopExpr, 1)]),
      Block(None, [Declaration("label", default, 2)])];
    var b0 := rules[0];
    var b1 := rules[1];
    assert AnyNew(b0.declarations, Start.active) by { assert b0.declarations[0].property !in Start.active; }
    var st0 := Start.(deps := Start.deps + eval(cond).deps);
    var st1 := Block1(Start, b0, eval);
    if ToBool(eval(cond).value) {
      var a := Record(st0, b0.declarations[0], eval);
      assert a.active["label"].1 == Str("clicked");
      var z := Record(a, b0.declarations[1], eval);
      assert z.stop && z.active["label"] == a.active["label"];
      assert DeclareFrom(z, b0.declarations, 2, eval) == z;
      assert DeclareFrom(a, b0.declarations, 1, eval) == z;
      assert DeclareFrom(st0, b0.declarations, 0, eval) == z;
      assert st1 == z;
      assert Cascade(rules, eval) == Scan(rules, 1, z, eval) == z;
    } else {
      assert st1 == st0;
      assert AnyNew(b1.declarations, st1.active) by { assert b1.declarations[0].property !in st1.active; }
      var a := Record(st0, b1.declarations[0], eval);
      assert DeclareFrom(a, b1.declarations, 1, eval) == a;
      assert DeclareFrom(st1, b1.declarations, 0, eval) == a;
      assert Block1(st1, b1, eval) == a;
      assert Scan(rules, 1, st1, eval) == Scan(rules, 2, a, eval) == a;
      assert Cascade(rules, eval) == Scan(rules, 1, st1, eval);
    }
  }

  // ----- The declaration diff -----

  /** DeclarationsChanged's changed set: every property removed, added or whose
      (declaration, value) pair differs. */
  function Changed(previous: Declarations, next: Declarations): (r: set<Expr>)
    ensures forall p :: Identifier(p) in r <==>
      ((p in previous || p in next) && (p !in previous || p !in next || previous[p] != next[p]))
    ensures forall e :: e in r ==> e.Identifier?
  {
    (set p | p in previous && (p !in next || next[p] != previous[p]) :: Identifier(p)) +
    (set p | p in next && p !in previous :: Identifier(p))
  }

  /** Re-running with the same result changes nothing, and only then. */
  lemma ChangedEmptyIffEqual(previous: Declarations, next: Declarations)
    ensures Changed(previous, next) == {} <==> previous == next
  {
    if Changed(previous, next) == {} {
      forall p | p in previous ensures p in next && next[p] == previous[p] {
        assert Identifier(p) !in Changed(previous, next);
      }
      forall p | p in next ensures p in previous {
        assert Identifier(p) !in Changed(previous, next);
      }
    }
  }
}
