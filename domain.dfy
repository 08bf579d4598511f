/**
 * The schema of a data table: variables grouped into three ordered roles
 * (attributes, class variables, metas), with the lookups, index mapping,
 * rendering, row conversion and domain-to-domain conversion that
 * Orange/tests/test_domain.py pins down.
 */
module Schema {
  import opened Wrappers
  import opened Text

  /** The semantic type of a column. A time variable is a continuous variable. */
  datatype VarKind = Continuous | Discrete(values: seq<string>) | StringKind | Time

  /**
   * A column description. `compute` identifies the transformation of a derived
   * variable (one made with `copy(compute_value=...)`); two variables are the
   * same column exactly when all three fields agree.
   */
  datatype Variable = Variable(name: string, kind: VarKind, compute: Option<nat>)

  predicate IsDiscrete(v: Variable) { v.kind.Discrete? }
  predicate IsContinuous(v: Variable) { v.kind.Continuous? || v.kind.Time? }
  predicate IsPrimitive(v: Variable) { !v.kind.StringKind? }

  datatype Domain = Domain(attributes: seq<Variable>, classVars: seq<Variable>, metas: seq<Variable>)

  datatype DomainError = KeyError | ValueError | TypeError

  /** `domain.variables`: the attributes followed by the class variables; never the metas. */
  function Variables(d: Domain): seq<Variable> {
    d.attributes + d.classVars
  }

  /** `domain.class_var`: the class variable when there is exactly one. */
  function ClassVar(d: Domain): (r: Option<Variable>)
    ensures r.Some? <==> |d.classVars| == 1
    ensures r.Some? ==> r.value == d.classVars[0]
  {
    if |d.classVars| == 1 then Some(d.classVars[0]) else None
  }

  /** How the class-variable argument of the constructor was given. */
  datatype Arg<T> = Absent | Lone(item: T) | Many(items: seq<T>)

  /** A lone class variable is wrapped into a one-element list; `None` is the empty list. */
  function AsList<T>(a: Arg<T>): (r: seq<T>)
    ensures a.Lone? ==> r == [a.item]
    ensures a.Absent? ==> r == []
  {
    match a
    case Absent => []
    case Lone(x) => [x]
    case Many(xs) => xs
  }

  predicate AllPrimitive(s: seq<Variable>) {
    forall i :: 0 <= i < |s| ==> IsPrimitive(s[i])
  }

  /** `Domain(attributes, class_vars, metas)`: a string variable may only be a meta. */
  function Make(attributes: seq<Variable>, classVars: Arg<Variable>, metas: seq<Variable>): (r: Result<Domain, DomainError>)
    ensures r.Ok? <==> AllPrimitive(attributes + AsList(classVars))
    ensures r.Err? ==> r.error == TypeError
    ensures r.Ok? ==> Variables(r.value) == attributes + AsList(classVars) && r.value.metas == metas
    ensures r.Ok? ==> r.value.attributes == attributes && r.value.classVars == AsList(classVars)
  {
    var d := Domain(attributes, AsList(classVars), metas);
    if AllPrimitive(Variables(d)) then Ok(d) else Err(TypeError)
  }

  /** The key of a lookup: a variable, a variable's name, or an index. */
  datatype Key = ByVar(v: Variable) | ByName(name: string) | ByIndex(i: int)

  /** The position of the first occurrence of `v` in `s`. */
  function FirstIndexOf(s: seq<Variable>, v: Variable): (r: Option<nat>)
    ensures r.Some? ==> r.value < |s| && s[r.value] == v && v !in s[..r.value]
    ensures r.None? <==> v !in s
    decreases |s|
  {
    if s == [] then None
    else if s[0] == v then Some(0)
    else
      var rest := FirstIndexOf(s[1..], v);
      assert s == [s[0]] + s[1..];
      if rest.Some? then
        assert s[..rest.value + 1] == [s[0]] + s[1..][..rest.value];
        Some(rest.value + 1)
      else None
  }

  /** The position of the first variable in `s` called `name`. */
  function FirstNamed(s: seq<Variable>, name: string): (r: Option<nat>)
    ensures r.Some? ==> r.value < |s| && s[r.value].name == name
    ensures r.Some? ==> forall j :: 0 <= j < r.value ==> s[j].name != name
    ensures r.None? <==> forall j :: 0 <= j < |s| ==> s[j].name != name
    decreases |s|
  {
    if s == [] then None
    else if s[0].name == name then Some(0)
    else
      var rest := FirstNamed(s[1..], name);
      if rest.Some? then Some(rest.value + 1) else None
  }

  /** An index addresses `variables[i]` when non-negative and `metas[-1-i]` when negative. */
  predicate ValidIndex(d: Domain, i: int) {
    (0 <= i < |Variables(d)|) || (i < 0 && -1 - i < |d.metas|)
  }

  function At(d: Domain, i: int): Variable
    requires ValidIndex(d, i)
  {
    if i >= 0 then Variables(d)[i] else d.metas[-1 - i]
  }

  /** `domain[key]`; a missing variable, name or index is a KeyError. */
  function Lookup(d: Domain, k: Key): (r: Result<Variable, DomainError>)
    ensures r.Err? ==> r.error == KeyError
    ensures k.ByVar? ==> (r.Ok? <==> k.v in Variables(d) || k.v in d.metas)
    ensures k.ByVar? && r.Ok? ==> r.value == k.v
    ensures k.ByName? && r.Ok? ==> r.value.name == k.name
    ensures k.ByName? ==> (r.Ok? <==> exists v :: (v in Variables(d) || v in d.metas) && v.name == k.name)
    ensures k.ByName? && r.Ok? ==> r.value in Variables(d) || r.value in d.metas
    ensures k.ByName? && FirstNamed(Variables(d), k.name).Some? ==>
              r == Ok(Variables(d)[FirstNamed(Variables(d), k.name).value])
    ensures k.ByName? && FirstNamed(Variables(d), k.name).None? && FirstNamed(d.metas, k.name).Some? ==>
              r == Ok(d.metas[FirstNamed(d.metas, k.name).value])
    ensures k.ByIndex? ==> (r.Ok? <==> ValidIndex(d, k.i))
    ensures k.ByIndex? && r.Ok? && k.i >= 0 ==> r.value == Variables(d)[k.i]
    ensures k.ByIndex? && r.Ok? && k.i < 0 ==> r.value == d.metas[-1 - k.i]
  {
    match k
    case ByVar(v) =>
      if v in Variables(d) || v in d.metas then Ok(v) else Err(KeyError)
    case ByName(n) =>
      var vars := Variables(d);
      (match FirstNamed(vars, n)
      case Some(i) => Ok(vars[i])
      case None =>
        match FirstNamed(d.metas, n)
        case Some(j) => Ok(d.metas[j])
        case None =>
          assert forall v :: v in vars ==> v.name != n by {
            forall v | v in vars ensures v.name != n {
              var i :| 0 <= i < |vars| && vars[i] == v;
            }
          }
          assert forall v :: v in d.metas ==> v.name != n by {
            forall v | v in d.metas ensures v.name != n {
              var j :| 0 <= j < |d.metas| && d.metas[j] == v;
            }
          }
          Err(KeyError))
    case ByIndex(i) =>
      if ValidIndex(d, i) then Ok(At(d, i)) else Err(KeyError)
  }

  /** `key in domain`: exactly the keys that `domain[key]` resolves. */
  predicate Contains(d: Domain, k: Key) {
    Lookup(d, k).Ok?
  }

  /** `domain.index(key)`: the position in `variables`, or `-1-j` for meta `j`; a missing key is a ValueError. */
  function Index(d: Domain, k: Key): (r: Result<int, DomainError>)
    ensures r.Err? ==> r.error == ValueError
    ensures r.Ok? ==> ValidIndex(d, r.value)
  {
    var vars := Variables(d);
    match k
    case ByVar(v) =>
      (match FirstIndexOf(vars, v)
       case Some(i) => Ok(i)
       case None =>
         match FirstIndexOf(d.metas, v)
         case Some(j) => Ok(-1 - j)
         case None => Err(ValueError))
    case ByName(n) =>
      (match FirstNamed(vars, n)
       case Some(i) => Ok(i)
       case None =>
         match FirstNamed(d.metas, n)
         case Some(j) => Ok(-1 - j)
         case None => Err(ValueError))
    case ByIndex(i) =>
      if ValidIndex(d, i) then Ok(i) else Err(ValueError)
  }

  /**
   * `index` and `[]` agree: a key has an index exactly when it resolves, and
   * the variable at that index is the one it resolves to.
   */
  lemma IndexAgreesWithLookup(d: Domain, k: Key)
    ensures Index(d, k).Ok? <==> Contains(d, k)
    ensures Index(d, k).Ok? ==> At(d, Index(d, k).value) == Lookup(d, k).value
  {
    var vars := Variables(d);
    if k.ByVar? {
      var fv, fm := FirstIndexOf(vars, k.v), FirstIndexOf(d.metas, k.v);
    } else if k.ByName? {
      var fv, fm := FirstNamed(vars, k.name), FirstNamed(d.metas, k.name);
      if fv.None? && fm.None? {
        assert !Lookup(d, k).Ok?;
      }
    }
  }

  /** Iterating over a domain yields `variables` only. */
  function Iterate(d: Domain): (r: seq<Variable>)
    ensures |r| == |d.attributes| + |d.classVars|
    ensures forall i :: 0 <= i < |r| ==> Lookup(d, ByIndex(i)) == Ok(r[i])
  {
    Variables(d)
  }

  /** A slice bound as Python reads it against length `n`: negative counts from the end, then clamped to `0..n`. */
  function Position(i: int, n: nat): (r: nat)
    ensures r <= n
    ensures i >= 0 ==> r == (if i < n then i else n)
    ensures i < 0 ==> r == (if i + n > 0 then i + n else 0)
  {
    if i >= n then n else if i >= 0 then i else if i + n > 0 then i + n else 0
  }

  /** `domain[lo:hi]`: Python slicing of `variables`; an omitted upper bound is the length. */
  function Slice(d: Domain, lo: int, hi: Option<int>): (r: seq<Variable>)
    ensures var n := |Variables(d)|; var a, b := Position(lo, n), Position(hi.GetOr(n), n);
            |r| == (if a <= b then b - a else 0) && forall k :: 0 <= k < |r| ==> r[k] == Variables(d)[a + k]
    ensures var n := |Variables(d)|; 0 <= lo && hi.GetOr(n) >= 0 ==>
              var h := if hi.GetOr(n) < n then hi.GetOr(n) else n;
              r == (if lo <= h then Variables(d)[lo..h] else [])
    ensures |Variables(d)| <= lo ==> r == []
  {
    var n := |Variables(d)|;
    var a, b := Position(lo, n), Position(hi.GetOr(n), n);
    if a < b then Variables(d)[a..b] else []
  }

  function Names(vs: seq<Variable>): (r: seq<string>)
    ensures |r| == |vs|
    ensures forall i :: 0 <= i < |vs| ==> r[i] == vs[i].name
  {
    seq(|vs|, i requires 0 <= i < |vs| => vs[i].name)
  }

  /** `str(domain)`: `[attrs | classes] {metas}`, each part joined by ", ", empty parts left out. */
  function Render(d: Domain): (r: string)
    ensures |r| >= 2 && r[0] == '['
    ensures d.metas == [] ==> r[|r| - 1] == ']'
    ensures d.metas != [] ==> r[|r| - 1] == '}'
  {
    "[" + Join(Names(d.attributes), ", ")
    + (if |d.classVars| > 0 then " | " + Join(Names(d.classVars), ", ") else "")
    + "]"
    + (if |d.metas| > 0 then " {" + Join(Names(d.metas), ", ") + "}" else "")
  }

  /** Only the names of the variables, role by role, decide the rendering. */
  lemma RenderDependsOnNames(d: Domain, e: Domain)
    requires Names(d.attributes) == Names(e.attributes) && Names(d.classVars) == Names(e.classVars)
    requires Names(d.metas) == Names(e.metas)
    ensures Render(d) == Render(e)
  {
    assert |d.classVars| == |e.classVars| && |d.metas| == |e.metas|;
  }

  /** Braces appear in the rendering exactly when there are metas, unless a name holds one. */
  lemma RenderBracesMeanMetas(d: Domain)
    requires forall i :: 0 <= i < |d.attributes| ==> '{' !in d.attributes[i].name
    requires forall i :: 0 <= i < |d.classVars| ==> '{' !in d.classVars[i].name
    ensures d.metas == [] <==> '{' !in Render(d)
  {
    var attrs, classes := Names(d.attributes), Names(d.classVars);
    JoinAvoids(attrs, ", ", '{');
    JoinAvoids(classes, ", ", '{');
    if d.metas != [] {
      var tail := " {" + Join(Names(d.metas), ", ") + "}";
      assert tail[1] == '{';
      assert Render(d) == ("[" + Join(attrs, ", ") + (if |d.classVars| > 0 then " | " + Join(classes, ", ") else "") + "]") + tail;
    }
  }

  /** `has_discrete_attributes`: some attribute (or, with `includeClass`, some class variable) is discrete. */
  function AnyDiscrete(s: seq<Variable>): (r: bool)
    ensures r <==> exists i :: 0 <= i < |s| && IsDiscrete(s[i])
    decreases |s|
  {
    if s == [] then false else IsDiscrete(s[0]) || AnyDiscrete(s[1..])
  }

  function AnyContinuous(s: seq<Variable>): (r: bool)
    ensures r <==> exists i :: 0 <= i < |s| && IsContinuous(s[i])
    decreases |s|
  {
    if s == [] then false else IsContinuous(s[0]) || AnyContinuous(s[1..])
  }

  function HasDiscreteAttributes(d: Domain, includeClass: bool): (r: bool)
    ensures r <==> (exists v :: v in d.attributes && IsDiscrete(v))
                   || (includeClass && exists v :: v in d.classVars && IsDiscrete(v))
  {
    var s := if includeClass then Variables(d) else d.attributes;
    var r := AnyDiscrete(s);
    assert r ==> (exists v :: v in d.attributes && IsDiscrete(v))
                 || (includeClass && exists v :: v in d.classVars && IsDiscrete(v)) by {
      if r {
        var i :| 0 <= i < |s| && IsDiscrete(s[i]);
        if i < |d.attributes| { assert s[i] in d.attributes; }
        else { assert s[i] == d.classVars[i - |d.attributes|]; }
      }
    }
    assert (exists v :: v in d.attributes && IsDiscrete(v)) ==> r by {
      if v :| v in d.attributes && IsDiscrete(v) {
        var i :| 0 <= i < |d.attributes| && d.attributes[i] == v;
        assert s[i] == v;
      }
    }
    assert (includeClass && exists v :: v in d.classVars && IsDiscrete(v)) ==> r by {
      if includeClass && exists v :: v in d.classVars && IsDiscrete(v) {
        var v :| v in d.classVars && IsDiscrete(v);
        var i :| 0 <= i < |d.classVars| && d.classVars[i] == v;
        assert s[|d.attributes| + i] == v;
      }
    }
    r
  }

  function HasContinuousAttributes(d: Domain, includeClass: bool): (r: bool)
    ensures r <==> (exists v :: v in d.attributes && IsContinuous(v))
                   || (includeClass && exists v :: v in d.classVars && IsContinuous(v))
  {
    var s := if includeClass then Variables(d) else d.attributes;
    var r := AnyContinuous(s);
    assert r ==> (exists v :: v in d.attributes && IsContinuous(v))
                 || (includeClass && exists v :: v in d.classVars && IsContinuous(v)) by {
      if r {
        var i :| 0 <= i < |s| && IsContinuous(s[i]);
        if i < |d.attributes| { assert s[i] in d.attributes; }
        else { assert s[i] == d.classVars[i - |d.attributes|]; }
      }
    }
    assert (exists v :: v in d.attributes && IsContinuous(v)) ==> r by {
      if v :| v in d.attributes && IsContinuous(v) {
        var i :| 0 <= i < |d.attributes| && d.attributes[i] == v;
        assert s[i] == v;
      }
    }
    assert (includeClass && exists v :: v in d.classVars && IsContinuous(v)) ==> r by {
      if includeClass && exists v :: v in d.classVars && IsContinuous(v) {
        var v :| v in d.classVars && IsContinuous(v);
        var i :| 0 <= i < |d.classVars| && d.classVars[i] == v;
        assert s[|d.attributes| + i] == v;
      }
    }
    r
  }

  // ---------------------------------------------------------------- construction from keys

  /** Resolves each key against `source`, failing on the first key that does not resolve. */
  function ResolveAll(source: Domain, keys: seq<Key>): (r: Result<seq<Variable>, DomainError>)
    ensures r.Ok? <==> forall i :: 0 <= i < |keys| ==> Contains(source, keys[i])
    ensures r.Ok? ==> |r.value| == |keys|
    ensures r.Ok? ==> forall i :: 0 <= i < |keys| ==> Lookup(source, keys[i]) == Ok(r.value[i])
    ensures r.Err? ==> r.error == KeyError
    decreases |keys|
  {
    if keys == [] then Ok([])
    else
      match Lookup(source, keys[0])
      case Err(e) => Err(e)
      case Ok(v) =>
        match ResolveAll(source, keys[1..])
        case Err(e) =>
          assert !Contains(source, keys[1..][0]) || exists i :: 0 <= i < |keys| - 1 && !Contains(source, keys[1..][i]);
          Err(e)
        case Ok(vs) =>
          assert forall i :: 1 <= i < |keys| ==> keys[i] == keys[1..][i - 1];
          Ok([v] + vs)
  }

  /** Every key resolves in `source`. */
  predicate AllContained(source: Domain, keys: seq<Key>) {
    forall i :: 0 <= i < |keys| ==> Contains(source, keys[i])
  }

  /** Every key resolves in `source` to a variable that is not a string variable. */
  predicate AllResolvePrimitive(source: Domain, keys: seq<Key>)
    requires AllContained(source, keys)
  {
    forall i :: 0 <= i < |keys| ==> IsPrimitive(Lookup(source, keys[i]).value)
  }

  /** The class-variable argument resolved key by key, keeping its shape. */
  function ResolveArg(source: Domain, a: Arg<Key>): (r: Result<Arg<Variable>, DomainError>)
    ensures r.Ok? <==> AllContained(source, AsList(a))
    ensures r.Ok? ==> (r.value.Absent? <==> a.Absent?) && (r.value.Lone? <==> a.Lone?)
    ensures r.Ok? ==> |AsList(r.value)| == |AsList(a)|
    ensures r.Ok? ==> forall i :: 0 <= i < |AsList(a)| ==> Lookup(source, AsList(a)[i]) == Ok(AsList(r.value)[i])
    ensures r.Err? ==> r.error == KeyError
  {
    match a
    case Absent => Ok(Absent)
    case Lone(k) =>
      assert AsList(a)[0] == k;
      (match Lookup(source, k)
       case Ok(v) => Ok(Lone(v))
       case Err(e) => Err(e))
    case Many(ks) =>
      (match ResolveAll(source, ks)
       case Ok(vs) => Ok(Many(vs))
       case Err(e) => Err(e))
  }

  /** `Domain(attributes, class_vars, metas, source=source)`: every key is looked up in `source`. */
  function MakeFromSource(attributes: seq<Key>, classVars: Arg<Key>, metas: seq<Key>, source: Domain)
    : (r: Result<Domain, DomainError>)
    ensures r.Ok? ==> |r.value.attributes| == |attributes| && |r.value.metas| == |metas|
    ensures r.Ok? ==> forall i :: 0 <= i < |attributes| ==> Lookup(source, attributes[i]) == Ok(r.value.attributes[i])
    ensures r.Ok? ==> forall j :: 0 <= j < |metas| ==> Lookup(source, metas[j]) == Ok(r.value.metas[j])
    ensures r.Ok? ==> |r.value.classVars| == |AsList(classVars)|
    ensures r.Ok? ==> forall i :: 0 <= i < |AsList(classVars)| ==> Lookup(source, AsList(classVars)[i]) == Ok(r.value.classVars[i])
    ensures r.Ok? ==> AllPrimitive(Variables(r.value))
    ensures !(AllContained(source, attributes) && AllContained(source, AsList(classVars)) && AllContained(source, metas))
            ==> r == Err(KeyError)
    ensures AllContained(source, attributes) && AllContained(source, AsList(classVars)) && AllContained(source, metas) ==>
              (r.Ok? <==> AllResolvePrimitive(source, attributes) && AllResolvePrimitive(source, AsList(classVars)))
              && (r.Err? ==> r.error == TypeError)
  {
    match ResolveAll(source, attributes)
    case Err(e) => Err(e)
    case Ok(attrs) =>
      match ResolveArg(source, classVars)
      case Err(e) => Err(e)
      case Ok(cls) =>
        match ResolveAll(source, metas)
        case Err(e) => Err(e)
        case Ok(ms) =>
          ResolvedPrimitive(source, attributes, attrs, AsList(classVars), AsList(cls));
          Make(attrs, cls, ms)
  }

  /** Resolved variables are free of string variables exactly when each key resolves to one. */
  lemma ResolvedPrimitive(source: Domain, ks: seq<Key>, vs: seq<Variable>, ls: seq<Key>, ws: seq<Variable>)
    requires AllContained(source, ks) && |vs| == |ks|
    requires forall i :: 0 <= i < |ks| ==> Lookup(source, ks[i]) == Ok(vs[i])
    requires AllContained(source, ls) && |ws| == |ls|
    requires forall i :: 0 <= i < |ls| ==> Lookup(source, ls[i]) == Ok(ws[i])
    ensures AllPrimitive(vs + ws) <==> AllResolvePrimitive(source, ks) && AllResolvePrimitive(source, ls)
  {
    var all := vs + ws;
    assert forall i :: 0 <= i < |vs| ==> all[i] == vs[i];
    assert forall i :: 0 <= i < |ws| ==> all[|vs| + i] == ws[i];
    if AllResolvePrimitive(source, ks) && AllResolvePrimitive(source, ls) {
      forall i | 0 <= i < |all| ensures IsPrimitive(all[i]) {
        if i >= |vs| {
          assert all[i] == ws[i - |vs|];
        }
      }
    }
  }

  // ---------------------------------------------------------------- row conversion

  /** A raw cell handed to `convert`: a number or a string. */
  datatype Raw = RNum(x: real) | RStr(s: string)

  /** A converted cell; `Unknown` is the missing value. */
  datatype Val = Num(x: real) | Str(s: string) | Unknown

  /** The position of `s` in `values`. */
  function FirstString(values: seq<string>, s: string): (r: Option<nat>)
    ensures r.Some? ==> r.value < |values| && values[r.value] == s && s !in values[..r.value]
    ensures r.None? <==> s !in values
    decreases |values|
  {
    if values == [] then None
    else if values[0] == s then Some(0)
    else
      var rest := FirstString(values[1..], s);
      assert values == [values[0]] + values[1..];
      if rest.Some? then
        assert values[..rest.value + 1] == [values[0]] + values[1..][..rest.value];
        Some(rest.value + 1)
      else None
  }

  /** `var.to_val(raw)`: a discrete label becomes its position in the value list. */
  function ToVal(v: Variable, raw: Raw): (r: Result<Val, DomainError>)
    ensures v.kind.Discrete? && raw.RStr? ==>
              (r.Ok? <==> raw.s in v.kind.values)
    ensures v.kind.Discrete? && raw.RStr? && r.Ok? ==>
              r.value.Num? && 0 <= r.value.x.Floor < |v.kind.values| && r.value.x == r.value.x.Floor as real
              && v.kind.values[r.value.x.Floor] == raw.s
    ensures raw.RNum? && !v.kind.StringKind? ==> r == Ok(Num(raw.x))
    ensures raw.RStr? && (v.kind.Continuous? || v.kind.Time?) ==> r == Err(ValueError)
    ensures raw.RStr? && v.kind.StringKind? ==> r == Ok(Str(raw.s))
    ensures r.Err? ==> r.error == ValueError
  {
    match v.kind
    case Continuous => if raw.RNum? then Ok(Num(raw.x)) else Err(ValueError)
    case Time => if raw.RNum? then Ok(Num(raw.x)) else Err(ValueError)
    case Discrete(values) =>
      if raw.RNum? then Ok(Num(raw.x))
      else
        (match FirstString(values, raw.s)
         case Some(i) => Ok(Num(i as real))
         case None => Err(ValueError))
    case StringKind => if raw.RStr? then Ok(Str(raw.s)) else Err(ValueError)
  }

  function ConvertAll(vars: seq<Variable>, raws: seq<Raw>): (r: Result<seq<Val>, DomainError>)
    requires |vars| == |raws|
    ensures r.Ok? <==> forall i :: 0 <= i < |vars| ==> ToVal(vars[i], raws[i]).Ok?
    ensures r.Ok? ==> |r.value| == |vars|
    ensures r.Ok? ==> forall i :: 0 <= i < |vars| ==> r.value[i] == ToVal(vars[i], raws[i]).value
    ensures r.Err? ==> r.error == ValueError
    decreases |vars|
  {
    if vars == [] then Ok([])
    else
      match ToVal(vars[0], raws[0])
      case Err(e) => Err(e)
      case Ok(x) =>
        match ConvertAll(vars[1..], raws[1..])
        case Err(e) =>
          assert !ToVal(vars[1..][0], raws[1..][0]).Ok? || exists i :: 0 <= i < |vars| - 1 && !ToVal(vars[1..][i], raws[1..][i]).Ok?;
          Err(e)
        case Ok(xs) =>
          assert forall i :: 1 <= i < |vars| ==> vars[i] == vars[1..][i - 1] && raws[i] == raws[1..][i - 1];
          Ok([x] + xs)
  }

  datatype ConvertedRow = ConvertedRow(x: seq<Val>, y: seq<Val>, metas: seq<Val>)

  /**
   * `domain.convert(row)`: a row holds either the variables or the variables and
   * the metas; any other length is a ValueError. A row without metas gets
   * Unknown metas.
   */
  function Convert(d: Domain, row: seq<Raw>): (r: Result<ConvertedRow, DomainError>)
    ensures (|row| != |Variables(d)| && |row| != |Variables(d)| + |d.metas|) ==> r == Err(ValueError)
    ensures r.Ok? ==> |r.value.x| == |d.attributes| && |r.value.y| == |d.classVars| && |r.value.metas| == |d.metas|
    ensures r.Ok? ==> forall i :: 0 <= i < |d.attributes| ==> ToVal(d.attributes[i], row[i]) == Ok(r.value.x[i])
    ensures r.Ok? ==> forall i :: 0 <= i < |d.classVars| ==> ToVal(d.classVars[i], row[|d.attributes| + i]) == Ok(r.value.y[i])
    ensures r.Ok? && |row| == |Variables(d)| ==> forall j :: 0 <= j < |d.metas| ==> r.value.metas[j] == Unknown
    ensures r.Ok? && |row| != |Variables(d)| ==> forall j :: 0 <= j < |d.metas| ==>
              ToVal(d.metas[j], row[|Variables(d)| + j]) == Ok(r.value.metas[j])
    ensures r.Err? ==> r.error == ValueError
  {
    var n, m := |Variables(d)|, |d.metas|;
    if |row| != n && |row| != n + m then Err(ValueError)
    else
      match ConvertAll(Variables(d), row[..n])
      case Err(e) => Err(e)
      case Ok(vals) =>
        var metas := if |row| == n then Ok(seq(m, _ => Unknown)) else ConvertAll(d.metas, row[n..]);
        match metas
        case Err(e) => Err(e)
        case Ok(ms) =>
          assert forall i :: 0 <= i < |d.attributes| ==> Variables(d)[i] == d.attributes[i];
          assert forall i :: 0 <= i < |d.classVars| ==> Variables(d)[|d.attributes| + i] == d.classVars[i];
          Ok(ConvertedRow(vals[..|d.attributes|], vals[|d.attributes|..], ms))
  }

  // ---------------------------------------------------------------- domain conversion

  /** Where a target column takes its values from. */
  datatype ColumnSource = FromColumn(index: int) | Computed(transform: nat) | NoSource

  /** `DomainConversion(source, target)`, with one column source per target variable of each role. */
  datatype Conversion = Conversion(source: Domain, attributes: seq<ColumnSource>,
                                   classVars: seq<ColumnSource>, metas: seq<ColumnSource>)

  /**
   * A variable of the source domain is read from its index there; any other
   * variable is computed by its transformation, or has no source.
   */
  function SourceOf(source: Domain, v: Variable): (r: ColumnSource)
    ensures r.FromColumn? <==> Contains(source, ByVar(v))
    ensures r.FromColumn? ==> ValidIndex(source, r.index) && At(source, r.index) == v
    ensures r.Computed? <==> !Contains(source, ByVar(v)) && v.compute.Some?
    ensures r.Computed? ==> r.transform == v.compute.value
  {
    IndexAgreesWithLookup(source, ByVar(v));
    match Index(source, ByVar(v))
    case Ok(i) => FromColumn(i)
    case Err(_) =>
      match v.compute
      case Some(t) => Computed(t)
      case None => NoSource
  }

  function SourcesOf(source: Domain, vs: seq<Variable>): (r: seq<ColumnSource>)
    ensures |r| == |vs|
    ensures forall i :: 0 <= i < |vs| ==> r[i] == SourceOf(source, vs[i])
  {
    seq(|vs|, i requires 0 <= i < |vs| => SourceOf(source, vs[i]))
  }

  /** `target.get_conversion(source)`. */
  function GetConversion(target: Domain, source: Domain): (r: Conversion)
    ensures r.source == source
    ensures |r.attributes| == |target.attributes| && |r.classVars| == |target.classVars| && |r.metas| == |target.metas|
  {
    Conversion(source, SourcesOf(source, target.attributes), SourcesOf(source, target.classVars),
               SourcesOf(source, target.metas))
  }

  predicate Distinct(s: seq<Variable>) {
    forall i, j :: 0 <= i < j < |s| ==> s[i] != s[j]
  }

  /** In a domain whose columns are all distinct, every column is read from its own index. */
  lemma {:induction false} SourceOfOwnColumn(source: Domain, i: int)
    requires Distinct(Variables(source) + source.metas)
    requires ValidIndex(source, i)
    ensures SourceOf(source, At(source, i)) == FromColumn(i)
  {
    var vars, all := Variables(source), Variables(source) + source.metas;
    var v := At(source, i);
    if i >= 0 {
      var f := FirstIndexOf(vars, v);
      assert f.Some?;
      assert all[f.value] == vars[f.value] && all[i] == vars[i];
      assert f.value == i;
    } else {
      var j := -1 - i;
      assert all[|vars| + j] == v;
      assert forall k :: 0 <= k < |vars| ==> all[k] == vars[k];
      assert v !in vars;
      var f := FirstIndexOf(source.metas, v);
      assert all[|vars| + f.value] == v;
      assert f.value == j;
    }
  }

  /**
   * Converting into a domain made of columns of a source whose columns are all
   * distinct reads each target column from its own index in the source.
   */
  lemma {:induction false} SourcesOfColumns(source: Domain, vs: seq<Variable>, idx: seq<int>)
    requires Distinct(Variables(source) + source.metas)
    requires |vs| == |idx|
    requires forall t :: 0 <= t < |idx| ==> ValidIndex(source, idx[t]) && vs[t] == At(source, idx[t])
    ensures SourcesOf(source, vs) == seq(|idx|, t requires 0 <= t < |idx| => FromColumn(idx[t]))
  {
    forall t | 0 <= t < |idx|
      ensures SourcesOf(source, vs)[t] == FromColumn(idx[t])
    {
      SourceOfOwnColumn(source, idx[t]);
    }
  }

  /**
   * The first case of the conversion-speed test: the target takes a prefix of the
   * attributes, all class variables and all metas of the source.
   */
  lemma {:induction false} ConversionToPrefix(a: seq<Variable>, c: seq<Variable>, m: seq<Variable>, k: nat)
    requires Distinct(a + c + m)
    requires k <= |a|
    ensures var r := GetConversion(Domain(a[..k], c, m), Domain(a, c, m));
            r.attributes == seq(k, i requires 0 <= i < k => FromColumn(i))
            && r.classVars == seq(|c|, i requires 0 <= i < |c| => FromColumn(|a| + i))
            && r.metas == seq(|m|, j requires 0 <= j < |m| => FromColumn(-1 - j))
  {
    var source := Domain(a, c, m);
    assert Variables(source) + source.metas == a + c + m;
    PrefixSources(source, k);
    ClassSources(source);
    MetaSources(source);
  }

  lemma PrefixSources(source: Domain, k: nat)
    requires Distinct(Variables(source) + source.metas) && k <= |source.attributes|
    ensures SourcesOf(source, source.attributes[..k]) == seq(k, i requires 0 <= i < k => FromColumn(i))
  {
    var ia := seq(k, i requires 0 <= i < k => i);
    forall t | 0 <= t < k
      ensures ValidIndex(source, ia[t]) && source.attributes[..k][t] == At(source, ia[t])
    {
      assert Variables(source)[t] == source.attributes[t];
    }
    SourcesOfColumns(source, source.attributes[..k], ia);
  }

  lemma ClassSources(source: Domain)
    requires Distinct(Variables(source) + source.metas)
    ensures SourcesOf(source, source.classVars)
            == seq(|source.classVars|, i requires 0 <= i < |source.classVars| => FromColumn(|source.attributes| + i))
  {
    var a, c := |source.attributes|, source.classVars;
    var ic := seq(|c|, i requires 0 <= i < |c| => a + i);
    forall t | 0 <= t < |c|
      ensures ValidIndex(source, ic[t]) && c[t] == At(source, ic[t])
    {
      assert Variables(source)[a + t] == c[t];
    }
    SourcesOfColumns(source, c, ic);
  }

  lemma MetaSources(source: Domain)
    requires Distinct(Variables(source) + source.metas)
    ensures SourcesOf(source, source.metas)
            == seq(|source.metas|, j requires 0 <= j < |source.metas| => FromColumn(-1 - j))
  {
    var m := source.metas;
    var im := seq(|m|, j requires 0 <= j < |m| => -1 - j);
    forall t | 0 <= t < |m|
      ensures ValidIndex(source, im[t]) && m[t] == At(source, im[t])
    {
      assert im[t] == -1 - t;
      assert -1 - im[t] == t;
    }
    SourcesOfColumns(source, m, im);
    MetaColumns(|m|, im);
  }

  lemma MetaColumns(n: nat, im: seq<int>)
    requires |im| == n && forall t :: 0 <= t < n ==> im[t] == -1 - t
    ensures seq(|im|, t requires 0 <= t < |im| => FromColumn(im[t])) == seq(n, j requires 0 <= j < n => FromColumn(-1 - j))
  {
    var got := seq(|im|, t requires 0 <= t < |im| => FromColumn(im[t]));
    var want := seq(n, j requires 0 <= j < n => FromColumn(-1 - j));
    forall t | 0 <= t < n
      ensures got[t] == want[t]
    {
    }
  }
}
