/** The JSON structure check of app/core/json_depth_validator.py: a bounded recursion with
    early abort, compared with what it means for a value to be within its limits. */
module JsonValidator {
  import opened Text

  datatype Json = Scalar | List(items: seq<Json>) | Dict(members: seq<Member>)

  datatype Member = Member(key: string, value: Json)

  function Values(members: seq<Member>): (values: seq<Json>)
    ensures |values| == |members|
    ensures forall i | 0 <= i < |members| :: values[i] == members[i].value
  {
    seq(|members|, i requires 0 <= i < |members| => members[i].value)
  }

  /** The nested values of a container, in order. */
  function Children(v: Json): (children: seq<Json>)
    ensures forall c <- children :: c < v
  {
    match v
    case Scalar => []
    case List(items) => items
    case Dict(members) =>
      assert forall i | 0 <= i < |members| :: members[i].value < v;
      Values(members)
  }

  // ----- what the limits mean -----

  function Depth(v: Json): nat
    decreases v, 1, 0
  {
    if Children(v) == [] then 0 else 1 + DeepestOf(v, |Children(v)|)
  }

  /** The greatest depth among the first n children. */
  function DeepestOf(v: Json, n: nat): nat
    requires n <= |Children(v)|
    decreases v, 0, n
  {
    if n == 0 then 0
    else
      assert Children(v)[n - 1] in Children(v);
      var earlier, last := DeepestOf(v, n - 1), Depth(Children(v)[n - 1]);
      if last > earlier then last else earlier
  }

  datatype Limits = Limits(maxDepth: int, maxArrayLength: int, maxDictKeys: int)

  predicate OwnSizeOk(v: Json, lim: Limits) {
    match v
    case Scalar => true
    case List(items) => |items| <= lim.maxArrayLength
    case Dict(members) => |members| <= lim.maxDictKeys
  }

  /** Every list and dictionary in the value is within its limit. */
  predicate SizesOk(v: Json, lim: Limits)
    decreases v
  {
    OwnSizeOk(v, lim) && forall c <- Children(v) :: SizesOk(c, lim)
  }

  // ----- the code -----

  /** Where an oversized container sits: keys and indexes from the root. */
  datatype Step = AtKey(key: string) | AtIndex(index: nat)

  datatype Error =
    | DepthExceeded(maximum: int)
    | MeasuredDepth(depth: int, maximum: int)
    | DictTooLarge(path: seq<Step>, keys: nat)
    | ArrayTooLong(path: seq<Step>, length: nat)

  /** calculate_json_depth: gives up as soon as the current depth passes the maximum. */
  function CalculateDepth(v: Json, current: nat, maxDepth: int): Result<nat, Error>
    decreases v, 1, 0
  {
    if current > maxDepth then Err(DepthExceeded(maxDepth))
    else if Children(v) == [] then Ok(current)
    else MaxOver(v, |Children(v)|, current, maxDepth)
  }

  /** max() over the first n children; the first exception wins. */
  function MaxOver(v: Json, n: nat, current: nat, maxDepth: int): Result<nat, Error>
    requires n <= |Children(v)|
    decreases v, 0, n
  {
    if n == 0 then Ok(current)
    else
      var earlier := MaxOver(v, n - 1, current, maxDepth);
      if earlier.Err? then earlier
      else
        assert Children(v)[n - 1] in Children(v);
        var last := CalculateDepth(Children(v)[n - 1], current + 1, maxDepth);
        if last.Err? then last
        else if last.value > earlier.value then last
        else earlier
  }

  function PathStep(v: Json, i: nat): Step
    requires i < |Children(v)|
  {
    if v.List? then AtIndex(i) else AtKey(v.members[i].key)
  }

  /** check_limits: None when all is well. */
  function CheckLimits(v: Json, path: seq<Step>, lim: Limits): Option<Error>
    decreases v, 1, 0
  {
    match v
    case Scalar => None
    case List(items) =>
      if |items| > lim.maxArrayLength then Some(ArrayTooLong(path, |items|)) else CheckChildren(v, 0, path, lim)
    case Dict(members) =>
      if |members| > lim.maxDictKeys then Some(DictTooLarge(path, |members|)) else CheckChildren(v, 0, path, lim)
  }

  function CheckChildren(v: Json, i: nat, path: seq<Step>, lim: Limits): Option<Error>
    requires i <= |Children(v)|
    decreases v, 0, |Children(v)| - i
  {
    if i == |Children(v)| then None
    else
      assert Children(v)[i] in Children(v);
      var found := CheckLimits(Children(v)[i], path + [PathStep(v, i)], lim);
      if found.Some? then found else CheckChildren(v, i + 1, path, lim)
  }

  /** validate_json_structure; None means valid. */
  function ValidateStructure(v: Json, lim: Limits): Option<Error> {
    match CalculateDepth(v, 0, lim.maxDepth)
    case Err(error) => Some(error)
    case Ok(depth) =>
      if depth > lim.maxDepth then Some(MeasuredDepth(depth, lim.maxDepth))
      else CheckLimits(v, [], lim)
  }

  // ----- depth -----

  lemma {:induction false} MaxOverIsDeepest(v: Json, n: nat, current: nat, maxDepth: int)
    requires n <= |Children(v)| && current <= maxDepth
    ensures MaxOver(v, n, current, maxDepth)
         == if n == 0 then Ok(current)
            else if current + 1 + DeepestOf(v, n) <= maxDepth then Ok(current + 1 + DeepestOf(v, n))
            else Err(DepthExceeded(maxDepth))
    decreases v, 0, n
  {
    if n > 0 {
      assert Children(v)[n - 1] in Children(v);
      MaxOverIsDeepest(v, n - 1, current, maxDepth);
      AbortsExactlyBeyond(Children(v)[n - 1], current + 1, maxDepth);
    }
  }

  /** The recursion aborts exactly when the true depth passes the bound, and otherwise
      returns it; so the separate comparison after it never fires. */
  lemma {:induction false} AbortsExactlyBeyond(v: Json, current: nat, maxDepth: int)
    ensures CalculateDepth(v, current, maxDepth)
         == if current + Depth(v) <= maxDepth then Ok(current + Depth(v)) else Err(DepthExceeded(maxDepth))
    decreases v, 1, 0
  {
    if current <= maxDepth {
      MaxOverIsDeepest(v, |Children(v)|, current, maxDepth);
    }
  }

  // ----- sizes -----

  lemma {:induction false} ChildrenFine(v: Json, i: nat, path: seq<Step>, lim: Limits)
    requires i <= |Children(v)|
    ensures CheckChildren(v, i, path, lim).None?
       <==> forall k | i <= k < |Children(v)| :: SizesOk(Children(v)[k], lim)
    decreases v, 0, |Children(v)| - i
  {
    if i < |Children(v)| {
      assert Children(v)[i] in Children(v);
      LimitsCheckIsSizesOk(Children(v)[i], path + [PathStep(v, i)], lim);
      ChildrenFine(v, i + 1, path, lim);
    }
  }

  lemma {:induction false} LimitsCheckIsSizesOk(v: Json, path: seq<Step>, lim: Limits)
    ensures CheckLimits(v, path, lim).None? <==> SizesOk(v, lim)
    decreases v, 1, 0
  {
    if OwnSizeOk(v, lim) {
      ChildrenFine(v, 0, path, lim);
      assert forall c <- Children(v) :: exists k | 0 <= k < |Children(v)| :: Children(v)[k] == c;
    }
  }

  /** The value stands directly inside the container. */
  ghost predicate Inside(c: Json, v: Json) {
    match v
    case Scalar => false
    case List(items) => c in items
    case Dict(members) => exists m | m in members :: m.value == c
  }

  /** The target stands n containers below the value. */
  ghost predicate Nested(v: Json, n: nat, target: Json) {
    if n == 0 then target == v else exists c :: Inside(c, v) && Nested(c, n - 1, target)
  }

  ghost predicate Oversized(v: Json, lim: Limits) {
    (v.List? && |v.items| > lim.maxArrayLength) || (v.Dict? && |v.members| > lim.maxDictKeys)
  }

  lemma InsideIsChild(c: Json, v: Json)
    ensures Inside(c, v) <==> c in Children(v)
  {
    if v.Dict? {
      if Inside(c, v) {
        var m :| m in v.members && m.value == c;
        var i :| 0 <= i < |v.members| && v.members[i] == m;
        assert Children(v)[i] == c;
      }
      if c in Children(v) {
        var i :| 0 <= i < |Children(v)| && Children(v)[i] == c;
        assert v.members[i] in v.members;
      }
    }
  }

  lemma {:induction false} ChildDepth(v: Json, n: nat, k: nat)
    requires k < n <= |Children(v)|
    ensures Depth(Children(v)[k]) <= DeepestOf(v, n)
    decreases n
  {
    if k < n - 1 {
      ChildDepth(v, n - 1, k);
    }
  }

  lemma {:induction false} DeepestChild(v: Json, n: nat) returns (k: nat)
    requires 0 < n <= |Children(v)|
    ensures k < n && Depth(Children(v)[k]) == DeepestOf(v, n)
    decreases n
  {
    k := n - 1;
    if n > 1 && DeepestOf(v, n - 1) >= Depth(Children(v)[n - 1]) {
      k := DeepestChild(v, n - 1);
    } else if n == 1 {
      assert DeepestOf(v, 0) == 0;
    }
  }

  lemma {:induction false} NestedIsWithin(v: Json, n: nat, target: Json, lim: Limits)
    requires Nested(v, n, target)
    ensures n <= Depth(v) && (SizesOk(v, lim) ==> !Oversized(target, lim))
    decreases n
  {
    if n > 0 {
      var c :| Inside(c, v) && Nested(c, n - 1, target);
      InsideIsChild(c, v);
      var k :| 0 <= k < |Children(v)| && Children(v)[k] == c;
      ChildDepth(v, |Children(v)|, k);
      NestedIsWithin(c, n - 1, target, lim);
    }
  }

  lemma {:induction false} DeepestNested(v: Json) returns (target: Json)
    ensures Nested(v, Depth(v), target)
    decreases v
  {
    target := v;
    if Children(v) != [] {
      var k := DeepestChild(v, |Children(v)|);
      var c := Children(v)[k];
      assert c in Children(v);
      InsideIsChild(c, v);
      target := DeepestNested(c);
    }
  }

  lemma {:induction false} OversizedNested(v: Json, lim: Limits) returns (n: nat, target: Json)
    requires !SizesOk(v, lim)
    ensures Nested(v, n, target) && Oversized(target, lim)
    decreases v
  {
    n, target := 0, v;
    if OwnSizeOk(v, lim) {
      var c :| c in Children(v) && !SizesOk(c, lim);
      InsideIsChild(c, v);
      n, target := OversizedNested(c, lim);
      n := n + 1;
    }
  }

  /** Nothing is nested deeper than the limit, and no list or dictionary is over its own. */
  ghost predicate AllWithin(v: Json, lim: Limits) {
    forall n: nat, t | Nested(v, n, t) :: n <= lim.maxDepth && !Oversized(t, lim)
  }

  /** The validator accepts exactly the values with nothing nested deeper than the limit and no
      list or dictionary, however deep inside, over its own; the measured depth is never refused
      where the bounded recursion did not give up before. */
  lemma {:induction false} AcceptsExactly(v: Json, lim: Limits)
    ensures ValidateStructure(v, lim).None? <==> AllWithin(v, lim)
    ensures ValidateStructure(v, lim).Some? ==> !ValidateStructure(v, lim).value.MeasuredDepth?
  {
    AcceptsWithin(v, lim);
    if ValidateStructure(v, lim).None? {
      forall n: nat, t | Nested(v, n, t) ensures n <= lim.maxDepth && !Oversized(t, lim) {
        NestedIsWithin(v, n, t, lim);
      }
    }
    if AllWithin(v, lim) {
      var deepest := DeepestNested(v);
      assert Nested(v, Depth(v), deepest);
      if !SizesOk(v, lim) {
        var n, t := OversizedNested(v, lim);
        assert false;
      }
    }
  }

  lemma {:induction false} AcceptsWithin(v: Json, lim: Limits)
    ensures ValidateStructure(v, lim).None? <==> Depth(v) <= lim.maxDepth && SizesOk(v, lim)
    ensures ValidateStructure(v, lim).Some? ==> !ValidateStructure(v, lim).value.MeasuredDepth?
  {
    AbortsExactlyBeyond(v, 0, lim.maxDepth);
    LimitsCheckIsSizesOk(v, [], lim);
    LimitErrorsOnly(v, [], lim);
  }

  lemma {:induction false} LimitErrorsOnly(v: Json, path: seq<Step>, lim: Limits)
    ensures CheckLimits(v, path, lim).Some? ==> !CheckLimits(v, path, lim).value.MeasuredDepth?
    decreases v, 1, 0
  {
    ChildErrorsOnly(v, 0, path, lim);
  }

  lemma {:induction false} ChildErrorsOnly(v: Json, i: nat, path: seq<Step>, lim: Limits)
    requires i <= |Children(v)|
    ensures CheckChildren(v, i, path, lim).Some? ==> !CheckChildren(v, i, path, lim).value.MeasuredDepth?
    decreases v, 0, |Children(v)| - i
  {
    if i < |Children(v)| {
      assert Children(v)[i] in Children(v);
      LimitErrorsOnly(Children(v)[i], path + [PathStep(v, i)], lim);
      ChildErrorsOnly(v, i + 1, path, lim);
    }
  }

  // ----- the reported place -----

  /** Following the path from v leads to the target: an index leads into a list, a key into a
      dictionary. */
  ghost predicate LeadsTo(v: Json, path: seq<Step>, target: Json)
    decreases |path|
  {
    if path == [] then v == target
    else
      match path[0]
      case AtIndex(i) => v.List? && i < |v.items| && LeadsTo(v.items[i], path[1..], target)
      case AtKey(key) =>
        v.Dict? && exists i | 0 <= i < |v.members| ::
          v.members[i].key == key && LeadsTo(v.members[i].value, path[1..], target)
  }

  /** The error names the kind and size of a container that breaks its limit. */
  predicate Describes(e: Error, target: Json, lim: Limits) {
    match e
    case ArrayTooLong(_, length) => target.List? && |target.items| == length > lim.maxArrayLength
    case DictTooLarge(_, keys) => target.Dict? && |target.members| == keys > lim.maxDictKeys
    case _ => false
  }

  function PathOf(e: Error): seq<Step>
    requires e.ArrayTooLong? || e.DictTooLarge?
  {
    e.path
  }

  /** Found below v, itself at the given path, the error points along the rest to the target. */
  ghost predicate PointsAt(e: Error, v: Json, path: seq<Step>, target: Json, rest: seq<Step>, lim: Limits) {
    Describes(e, target, lim) && PathOf(e) == path + rest && LeadsTo(v, rest, target)
  }

  /** A size error points at a container that really is too large. */
  lemma {:induction false} ErrorPointsAtCulprit(v: Json, path: seq<Step>, lim: Limits)
    returns (target: Json, rest: seq<Step>)
    requires CheckLimits(v, path, lim).Some?
    ensures var e := CheckLimits(v, path, lim).value;
            PointsAt(e, v, path, target, rest, lim)
    decreases v, 1, 0
  {
    if OwnSizeOk(v, lim) {
      target, rest := ChildErrorPoints(v, 0, path, lim);
    } else {
      target, rest := v, [];
    }
  }

  lemma {:induction false} ChildErrorPoints(v: Json, i: nat, path: seq<Step>, lim: Limits)
    returns (target: Json, rest: seq<Step>)
    requires i <= |Children(v)| && CheckChildren(v, i, path, lim).Some?
    ensures var e := CheckChildren(v, i, path, lim).value;
            PointsAt(e, v, path, target, rest, lim)
    decreases v, 0, |Children(v)| - i
  {
    assert Children(v)[i] in Children(v);
    var step := PathStep(v, i);
    if CheckLimits(Children(v)[i], path + [step], lim).Some? {
      var below: seq<Step>;
      target, below := ErrorPointsAtCulprit(Children(v)[i], path + [step], lim);
      rest := [step] + below;
      OneStepDown(CheckLimits(Children(v)[i], path + [step], lim).value, v, i, path, target, below, lim);
    } else {
      target, rest := ChildErrorPoints(v, i + 1, path, lim);
    }
  }

  lemma {:induction false} OneStepDown(
    e: Error, v: Json, i: nat, path: seq<Step>, target: Json, below: seq<Step>, lim: Limits)
    requires i < |Children(v)| && PointsAt(e, Children(v)[i], path + [PathStep(v, i)], target, below, lim)
    ensures PointsAt(e, v, path, target, [PathStep(v, i)] + below, lim)
  {
    var step := [PathStep(v, i)];
    assert (step + below)[1..] == below;
    assert path + (step + below) == (path + step) + below;
    if v.Dict? {
      assert v.members[i].key == PathStep(v, i).key && Children(v)[i] == v.members[i].value;
    }
  }

  /** The error is about the value itself if that is too large, and otherwise what is found in
      the first of its parts that is not within its limits. */
  lemma {:induction false} FirstCulprit(v: Json, path: seq<Step>, lim: Limits) returns (k: nat)
    requires CheckLimits(v, path, lim).Some?
    ensures v.List? && |v.items| > lim.maxArrayLength ==>
      CheckLimits(v, path, lim) == Some(ArrayTooLong(path, |v.items|))
    ensures v.Dict? && |v.members| > lim.maxDictKeys ==>
      CheckLimits(v, path, lim) == Some(DictTooLarge(path, |v.members|))
    ensures !Oversized(v, lim) ==>
      && k < |Children(v)| && !SizesOk(Children(v)[k], lim)
      && (forall j | 0 <= j < k :: SizesOk(Children(v)[j], lim))
      && CheckLimits(v, path, lim) == CheckLimits(Children(v)[k], path + [PathStep(v, k)], lim)
  {
    k := 0;
    if !Oversized(v, lim) {
      k := FirstFound(v, 0, path, lim);
    }
  }

  lemma {:induction false} FirstFound(v: Json, i: nat, path: seq<Step>, lim: Limits) returns (k: nat)
    requires i <= |Children(v)| && CheckChildren(v, i, path, lim).Some?
    ensures i <= k < |Children(v)| && !SizesOk(Children(v)[k], lim)
    ensures forall j | i <= j < k :: SizesOk(Children(v)[j], lim)
    ensures CheckChildren(v, i, path, lim) == CheckLimits(Children(v)[k], path + [PathStep(v, k)], lim)
    decreases |Children(v)| - i
  {
    LimitsCheckIsSizesOk(Children(v)[i], path + [PathStep(v, i)], lim);
    k := i;
    if CheckLimits(Children(v)[i], path + [PathStep(v, i)], lim).None? {
      k := FirstFound(v, i + 1, path, lim);
    }
  }

  // ----- size of accepted values -----

  function Nodes(v: Json): nat
    decreases v, 1, 0
  {
    1 + NodesOf(v, |Children(v)|)
  }

  function NodesOf(v: Json, n: nat): nat
    requires n <= |Children(v)|
    decreases v, 0, n
  {
    if n == 0 then 0
    else
      assert Children(v)[n - 1] in Children(v);
      NodesOf(v, n - 1) + Nodes(Children(v)[n - 1])
  }

  /** Every value counts once, with all it contains. */
  lemma {:induction false} NodesAddUp(items: seq<Json>, members: seq<Member>, c: Json, key: string)
    ensures Nodes(Scalar) == Nodes(List([])) == Nodes(Dict([])) == 1
    ensures Nodes(List(items + [c])) == Nodes(List(items)) + Nodes(c)
    ensures Nodes(Dict(members + [Member(key, c)])) == Nodes(Dict(members)) + Nodes(c)
  {
    SameFirst(List(items), List(items + [c]), |items|);
    SameFirst(Dict(members), Dict(members + [Member(key, c)]), |members|);
  }

  lemma {:induction false} SameFirst(a: Json, b: Json, n: nat)
    requires n <= |Children(a)| && n <= |Children(b)| && Children(a)[..n] == Children(b)[..n]
    ensures NodesOf(a, n) == NodesOf(b, n)
    decreases n
  {
    if n > 0 {
      assert Children(a)[..n - 1] == Children(a)[..n][..n - 1] == Children(b)[..n][..n - 1] == Children(b)[..n - 1];
      assert Children(a)[n - 1] == Children(a)[..n][n - 1] == Children(b)[..n][n - 1] == Children(b)[n - 1];
      SameFirst(a, b, n - 1);
    }
  }

  function Power(b: nat, e: nat): nat {
    if e == 0 then 1 else b * Power(b, e - 1)
  }

  /** b^0 + ... + b^d. */
  function PowerSum(b: nat, d: nat): nat {
    if d == 0 then 1 else PowerSum(b, d - 1) + Power(b, d)
  }

  lemma {:induction false} PowerSumStep(b: nat, d: nat)
    requires d > 0
    ensures PowerSum(b, d) == 1 + b * PowerSum(b, d - 1)
  {
    if d > 1 {
      PowerSumStep(b, d - 1);
      assert b * (PowerSum(b, d - 2) + Power(b, d - 1)) == b * PowerSum(b, d - 2) + b * Power(b, d - 1);
    } else {
      assert Power(b, 1) == b * Power(b, 0) == b;
    }
  }

  lemma TimesMono(a: nat, b: nat, c: nat)
    requires a <= b
    ensures a * c <= b * c
  {}

  /** An accepted value has at most b^0 + ... + b^maxDepth nodes, b the larger limit. */
  lemma {:induction false} AcceptedAreSmall(v: Json, lim: Limits, b: nat, d: nat)
    requires SizesOk(v, lim) && Depth(v) <= d
    requires lim.maxArrayLength <= b && lim.maxDictKeys <= b
    ensures Nodes(v) <= PowerSum(b, d)
    decreases v, 1, 0
  {
    var n := |Children(v)|;
    if n == 0 {
      PowerSumPositive(b, d);
    } else {
      ChildrenAreSmall(v, n, lim, b, d - 1);
      PowerSumStep(b, d);
      TimesMono(n, b, PowerSum(b, d - 1));
    }
  }

  lemma {:induction false} PowerSumPositive(b: nat, d: nat)
    ensures PowerSum(b, d) >= 1
  {
    if d > 0 {
      PowerSumPositive(b, d - 1);
    }
  }

  lemma {:induction false} ChildrenAreSmall(v: Json, n: nat, lim: Limits, b: nat, d: nat)
    requires n <= |Children(v)| && SizesOk(v, lim) && DeepestOf(v, n) <= d
    requires lim.maxArrayLength <= b && lim.maxDictKeys <= b
    ensures NodesOf(v, n) <= n * PowerSum(b, d)
    decreases v, 0, n
  {
    if n > 0 {
      assert Children(v)[n - 1] in Children(v);
      ChildrenAreSmall(v, n - 1, lim, b, d);
      AcceptedAreSmall(Children(v)[n - 1], lim, b, d);
      assert n * PowerSum(b, d) == (n - 1) * PowerSum(b, d) + PowerSum(b, d);
    }
  }

  /** The bound for the validator's own verdict. */
  lemma {:induction false} AcceptanceBoundsSize(v: Json, lim: Limits)
    requires ValidateStructure(v, lim).None?
    ensures lim.maxDepth >= 0
    ensures Nodes(v) <= PowerSum(Max(0, Max(lim.maxArrayLength, lim.maxDictKeys)), lim.maxDepth)
  {
    AcceptsWithin(v, lim);
    AcceptedAreSmall(v, lim, Max(0, Max(lim.maxArrayLength, lim.maxDictKeys)), lim.maxDepth);
  }
}
