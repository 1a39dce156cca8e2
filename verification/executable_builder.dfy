/** The XML builder of constrained methods and constructors
    (`ConstrainedExecutableBuilder`): for each `<method>` or `<constructor>`
    descriptor it resolves the parameter type names, looks the member up on
    the bean class, rejects a member mapped twice, records "ignore
    annotations" overrides, and assembles one `ConstrainedExecutable` from the
    parameter, cross-parameter and return-value blocks.

    The annotation-processing options the Java builder mutates are modelled
    as the overrides each step emits; the fold appends them to a log in the
    order the Java code records them. */
module ExecutableBuilder {
  import opened Wrappers
  import opened Metadata

  // ---------------------------------------------------------------------
  // Parameter types and member lookup
  // ---------------------------------------------------------------------

  /** Every parameter's type name is known to the class loader. */
  predicate AllTypesResolve(ps: seq<ParameterDescriptor>, classes: map<string, Class>)
  {
    forall i :: 0 <= i < |ps| ==> ps[i].typeName in classes
  }

  /** `k` is the leftmost parameter whose type name does not resolve. */
  predicate FirstUnresolvable(ps: seq<ParameterDescriptor>, classes: map<string, Class>, k: int)
  {
    && 0 <= k < |ps|
    && ps[k].typeName !in classes
    && forall j :: 0 <= j < k ==> ps[j].typeName in classes
  }

  /** The classes the parameter type names resolve to, position by position. */
  function TypesOf(ps: seq<ParameterDescriptor>, classes: map<string, Class>): seq<Class>
    requires AllTypesResolve(ps, classes)
  {
    seq(|ps|, i requires 0 <= i < |ps| => classes[ps[i].typeName])
  }

  /** Resolves the declared parameter type names, in order. The first name the
      class loader does not know aborts the resolution with an
      invalid-parameter-type error naming it. */
  function CreateParameterTypes(ps: seq<ParameterDescriptor>, bean: Class, classes: map<string, Class>)
    : (r: Result<seq<Class>, BuildError>)
    ensures r.Success? <==> AllTypesResolve(ps, classes)
    ensures r.Success? ==>
              && |r.value| == |ps|
              && forall i :: 0 <= i < |ps| ==> ps[i].typeName in classes && r.value[i] == classes[ps[i].typeName]
    ensures r.Success? ==> r.value == TypesOf(ps, classes)
    ensures r.Failure? ==>
              exists k :: FirstUnresolvable(ps, classes, k) && r.error == InvalidParameterType(ps[k].typeName, bean)
    decreases |ps|
  {
    if |ps| == 0 then
      Success([])
    else if ps[0].typeName !in classes then
      assert FirstUnresolvable(ps, classes, 0);
      Failure(InvalidParameterType(ps[0].typeName, bean))
    else
      match CreateParameterTypes(ps[1..], bean, classes)
      case Success(rest) =>
        Success([classes[ps[0].typeName]] + rest)
      case Failure(e) =>
        assert forall k :: FirstUnresolvable(ps[1..], classes, k) ==> FirstUnresolvable(ps, classes, k + 1);
        Failure(e)
  }

  /** Resolves a descriptor to the declared member it maps: the parameter
      types are resolved first, then the bean's declared-member index is
      consulted with the method name (for a method) and the resolved
      signature. A member the index does not hold is a "bean does not contain
      method/constructor" error. */
  function ResolveExecutable(d: ExecutableDescriptor, bean: BeanClass, classes: map<string, Class>)
    : (r: Result<Executable, BuildError>)
    ensures r.Success? <==>
              && AllTypesResolve(d.parameters, classes)
              && (d.MethodEntry? ==> MethodKey(d.name, TypesOf(d.parameters, classes)) in bean.declaredMethods)
              && (d.ConstructorEntry? ==> TypesOf(d.parameters, classes) in bean.declaredConstructors)
    ensures r.Success? ==>
              && r.value.declaringClass == bean.cls
              && (r.value.Method? <==> d.MethodEntry?)
              && AllTypesResolve(d.parameters, classes)
              && |r.value.parameterTypes| == |d.parameters|
              && forall i :: 0 <= i < |d.parameters| ==>
                   r.value.parameterTypes[i] == classes[d.parameters[i].typeName]
    ensures r.Success? && d.MethodEntry? ==>
              && r.value.name == d.name
              && MethodKey(d.name, r.value.parameterTypes) in bean.declaredMethods
              && r.value.returnType == bean.declaredMethods[MethodKey(d.name, r.value.parameterTypes)]
    ensures r.Success? && d.ConstructorEntry? ==> r.value.parameterTypes in bean.declaredConstructors
  {
    match CreateParameterTypes(d.parameters, bean.cls, classes)
    case Failure(e) => Failure(e)
    case Success(types) =>
      if d.MethodEntry? then
        var key := MethodKey(d.name, types);
        if key in bean.declaredMethods then Success(Method(bean.cls, d.name, types, bean.declaredMethods[key]))
        else Failure(BeanDoesNotContainMethod(bean.cls, d.name, types))
      else
        if types in bean.declaredConstructors then Success(Constructor(bean.cls, types))
        else Failure(BeanDoesNotContainConstructor(bean.cls, types))
  }

  /** The error for a member that an earlier descriptor already mapped. */
  function DefinedTwice(m: Executable, bean: Class): BuildError
  {
    if m.Method? then MethodDefinedTwice(m, bean) else ConstructorDefinedTwice(m, bean)
  }

  // ---------------------------------------------------------------------
  // Which overrides a descriptor records
  // ---------------------------------------------------------------------

  /** The override recorded for the member itself: one exactly when the
      descriptor carries an `ignore-annotations` flag. */
  function MemberOverrides(d: ExecutableDescriptor, m: Executable): OverrideLog
  {
    match d.ignoreAnnotations
    case None => []
    case Some(b) => [OnMember(m, b)]
  }

  /** The override recorded for the cross-parameter block, when the block is
      present and carries an `ignore-annotations` flag. */
  function CrossParameterOverrides(c: Option<CrossParameterDescriptor>, m: Executable): OverrideLog
  {
    match c
    case None => []
    case Some(cp) =>
      match cp.ignoreAnnotations
      case None => []
      case Some(b) => [OnCrossParameter(m, b)]
  }

  /** The override recorded for the return-value block, when the block is
      present and carries an `ignore-annotations` flag. */
  function ReturnValueOverrides(rv: Option<ReturnValueDescriptor>, m: Executable): OverrideLog
  {
    match rv
    case None => []
    case Some(v) =>
      match v.ignoreAnnotations
      case None => []
      case Some(b) => [OnReturnValue(m, b)]
  }

  /** All overrides one descriptor records, in the order they are recorded:
      member, cross-parameter block, return-value block. */
  function OverridesFor(d: ExecutableDescriptor, m: Executable): OverrideLog
  {
    MemberOverrides(d, m) + CrossParameterOverrides(d.crossParameter, m) + ReturnValueOverrides(d.returnValue, m)
  }

  // ---------------------------------------------------------------------
  // Cross-parameter and return-value blocks
  // ---------------------------------------------------------------------

  /** What parsing a cross-parameter block yields: its constraints and the
      overrides it records. */
  datatype CrossParameterParse = CrossParameterParse(constraints: seq<MetaConstraint>, overrides: OverrideLog)

  /** Builds one cross-parameter constraint per entry of the block, all bound
      to the executable's cross-parameter location; an absent block has no
      constraints. */
  function ParseCrossParameterConstraints(c: Option<CrossParameterDescriptor>, exec: Executable, defaultPackage: string)
    : (r: CrossParameterParse)
    ensures c.None? ==> r.constraints == []
    ensures c.Some? ==>
              && |r.constraints| == |c.value.constraints|
              && forall i :: 0 <= i < |r.constraints| ==> r.constraints[i].declaration == c.value.constraints[i]
    ensures forall mc :: mc in r.constraints ==>
              && mc.kind == CrossParameter
              && mc.location == CrossParameterLocation(exec)
              && mc.elementType == ElementTypeOf(exec)
              && mc.defaultPackage == defaultPackage
    ensures r.overrides == CrossParameterOverrides(c, exec)
  {
    match c
    case None => CrossParameterParse([], [])
    case Some(cp) =>
      var location := CrossParameterLocation(exec);
      var constraints := seq(|cp.constraints|, i requires 0 <= i < |cp.constraints| =>
        MetaConstraint(location, cp.constraints[i], ElementTypeOf(exec), defaultPackage, CrossParameter));
      CrossParameterParse(constraints, CrossParameterOverrides(c, exec))
  }

  /** What parsing a return-value block yields. */
  datatype ReturnValueParse = ReturnValueParse(
    constraints: seq<MetaConstraint>,
    groupConversions: map<Class, Class>,
    isCascaded: bool,
    overrides: OverrideLog)

  /** Builds one generic constraint per entry of the return-value block, bound
      to the return-value location, takes over the block's group conversions,
      and reports the return value as cascaded exactly when the block carries
      a `valid` marker. An absent block yields nothing and no cascading. */
  function ParseReturnValueType(rv: Option<ReturnValueDescriptor>, exec: Executable, ctx: Context)
    : (r: ReturnValueParse)
    ensures rv.None? ==> r.constraints == [] && r.groupConversions == map[]
    ensures rv.Some? ==>
              && |r.constraints| == |rv.value.constraints|
              && (forall i :: 0 <= i < |r.constraints| ==> r.constraints[i].declaration == rv.value.constraints[i])
              && r.groupConversions == ctx.buildGroupConversions(rv.value.convertGroups, ctx.defaultPackage)
    ensures forall mc :: mc in r.constraints ==>
              && mc.kind == Generic
              && mc.location == ReturnValueLocation(exec)
              && mc.elementType == ElementTypeOf(exec)
              && mc.defaultPackage == ctx.defaultPackage
    ensures r.isCascaded <==> rv.Some? && rv.value.valid.Some?
    ensures r.overrides == ReturnValueOverrides(rv, exec)
  {
    match rv
    case None => ReturnValueParse([], map[], false, [])
    case Some(v) =>
      var location := ReturnValueLocation(exec);
      var constraints := seq(|v.constraints|, i requires 0 <= i < |v.constraints| =>
        MetaConstraint(location, v.constraints[i], ElementTypeOf(exec), ctx.defaultPackage, Generic));
      var groupConversions := ctx.buildGroupConversions(v.convertGroups, ctx.defaultPackage);
      ReturnValueParse(constraints, groupConversions, v.valid.Some?, ReturnValueOverrides(rv, exec))
  }

  /** The cascading markers of an executable: none when the return value is
      not cascaded, otherwise a single marker that cascades into the elements
      of the returned array exactly when the executable is a method with an
      array return type. */
  function GetCascadedTypeParameters(exec: Executable, isCascaded: bool): (r: seq<CascadingTypeParameter>)
    ensures !isCascaded <==> r == []
    ensures isCascaded ==>
              && |r| == 1
              && r[0].of == exec
              && (r[0].ArrayElement? <==> exec.Method? && exec.returnType.IsArray())
  {
    if isCascaded then
      var isArray := exec.Method? && exec.returnType.IsArray();
      [if isArray then ArrayElement(exec) else AnnotatedObject(exec)]
    else
      []
  }

  // ---------------------------------------------------------------------
  // One executable
  // ---------------------------------------------------------------------

  /** What parsing one descriptor against its resolved member yields: the
      emitted record and the overrides its blocks record. */
  datatype Parsed = Parsed(executable: ConstrainedExecutable, overrides: OverrideLog)

  /** Assembles the XML-sourced record of member `m` from descriptor `d`. */
  function ParseExecutableType(d: ExecutableDescriptor, m: Executable, ctx: Context): (r: Parsed)
    ensures r.executable.source == Xml
    ensures r.executable.executable == m
    ensures |r.executable.parameters| == |d.parameters|
    ensures forall i :: 0 <= i < |d.parameters| ==>
              r.executable.parameters[i] == ConstrainedParameter(m, i, d.parameters[i], ctx.defaultPackage)
    ensures d.crossParameter.None? ==> r.executable.crossParameterConstraints == []
    ensures d.crossParameter.Some? ==>
              Declarations(r.executable.crossParameterConstraints) == d.crossParameter.value.constraints
    ensures forall mc :: mc in r.executable.crossParameterConstraints ==>
              mc.kind == CrossParameter && mc.location == CrossParameterLocation(m)
    ensures d.returnValue.None? ==>
              r.executable.returnValueConstraints == [] && r.executable.groupConversions == map[]
    ensures d.returnValue.Some? ==>
              && Declarations(r.executable.returnValueConstraints) == d.returnValue.value.constraints
              && r.executable.groupConversions
                 == ctx.buildGroupConversions(d.returnValue.value.convertGroups, ctx.defaultPackage)
    ensures forall mc :: mc in r.executable.returnValueConstraints ==>
              mc.kind == Generic && mc.location == ReturnValueLocation(m)
    ensures r.executable.typeArgumentConstraints == []
    ensures |r.executable.cascadingTypeParameters| <= 1
    ensures r.executable.cascadingTypeParameters == [] <==> d.returnValue.None? || d.returnValue.value.valid.None?
    ensures forall c :: c in r.executable.cascadingTypeParameters ==>
              c.of == m && (c.ArrayElement? <==> m.Method? && m.returnType.IsArray())
    ensures r.overrides == CrossParameterOverrides(d.crossParameter, m) + ReturnValueOverrides(d.returnValue, m)
  {
    var parameters := seq(|d.parameters|, i requires 0 <= i < |d.parameters| =>
      ConstrainedParameter(m, i, d.parameters[i], ctx.defaultPackage));
    var cross := ParseCrossParameterConstraints(d.crossParameter, m, ctx.defaultPackage);
    var ret := ParseReturnValueType(d.returnValue, m, ctx);
    var record := ConstrainedExecutable(
      Xml, m, parameters, cross.constraints, ret.constraints, [], ret.groupConversions,
      GetCascadedTypeParameters(m, ret.isCascaded));
    Parsed(record, cross.overrides + ret.overrides)
  }

  // ---------------------------------------------------------------------
  // The descriptor list
  // ---------------------------------------------------------------------

  /** What building a descriptor list yields: the records or the error that
      aborted the build, and the override log as it stands afterwards. */
  datatype Outcome = Outcome(result: Result<seq<ConstrainedExecutable>, BuildError>, log: OverrideLog)

  /** The fold over the descriptors, left to right, with the members processed
      so far. Each descriptor is resolved to its member (type errors first,
      then a missing member), rejected when the member was already processed,
      and otherwise has its overrides recorded and its record assembled. */
  function BuildFrom(
    ds: seq<ExecutableDescriptor>, bean: BeanClass, ctx: Context, processed: seq<Executable>, log: OverrideLog)
    : (o: Outcome)
    ensures o.result.Success? ==> |o.result.value| == |ds|
    ensures o.result.Success? ==> forall i :: 0 <= i < |ds| ==>
              && ResolveExecutable(ds[i], bean, ctx.classes) == Success(o.result.value[i].executable)
              && o.result.value[i] == ParseExecutableType(ds[i], o.result.value[i].executable, ctx).executable
              && o.result.value[i].executable !in processed
    ensures o.result.Success? ==> forall i, j :: 0 <= i < j < |ds| ==>
              o.result.value[i].executable != o.result.value[j].executable
    decreases |ds|
  {
    if |ds| == 0 then
      Outcome(Success([]), log)
    else
      match ResolveExecutable(ds[0], bean, ctx.classes)
      case Failure(e) => Outcome(Failure(e), log)
      case Success(m) =>
        if m in processed then
          Outcome(Failure(DefinedTwice(m, bean.cls)), log)
        else
          var parsed := ParseExecutableType(ds[0], m, ctx);
          var rest := BuildFrom(ds[1..], bean, ctx, processed + [m], log + MemberOverrides(ds[0], m) + parsed.overrides);
          match rest.result
          case Success(es) =>
            ConsPointwise(ds, parsed.executable, es,
              (d, e: ConstrainedExecutable) =>
                && ResolveExecutable(d, bean, ctx.classes) == Success(e.executable)
                && e == ParseExecutableType(d, e.executable, ctx).executable
                && e.executable !in processed);
            ConsDistinct(parsed.executable, es);
            Outcome(Success([parsed.executable] + es), rest.log)
          case Failure(e) => Outcome(Failure(e), rest.log)
  }

  /** A condition that holds of the head pair and, position by position, of
      the tails holds position by position of the whole sequences. */
  lemma ConsPointwise<D, E>(ds: seq<D>, head: E, es: seq<E>, ok: (D, E) -> bool)
    requires |ds| == |es| + 1 && ok(ds[0], head)
    requires forall k :: 0 <= k < |es| ==> ok(ds[1..][k], es[k])
    ensures forall i :: 0 <= i < |ds| ==> ok(ds[i], ([head] + es)[i])
  {
  }

  /** Records about pairwise distinct members stay so when a record about a
      new member is put in front. */
  lemma ConsDistinct(head: ConstrainedExecutable, es: seq<ConstrainedExecutable>)
    requires forall k :: 0 <= k < |es| ==> es[k].executable != head.executable
    requires forall k, l :: 0 <= k < l < |es| ==> es[k].executable != es[l].executable
    ensures forall i, j :: 0 <= i < j < |es| + 1 ==> ([head] + es)[i].executable != ([head] + es)[j].executable
  {
  }

  /** `buildMethodConstrainedExecutable`: one record per `<method>` element,
      each about the declared method of the element's name. */
  function BuildMethodConstrainedExecutables(methods: seq<MethodType>, bean: BeanClass, ctx: Context, log: OverrideLog)
    : (o: Outcome)
    ensures o.result.Success? ==>
              && |o.result.value| == |methods|
              && forall i :: 0 <= i < |methods| ==>
                   && o.result.value[i].source == Xml
                   && o.result.value[i].executable.Method?
                   && o.result.value[i].executable.name == methods[i].name
                   && o.result.value[i].executable.declaringClass == bean.cls
  {
    BuildFrom(methods, bean, ctx, [], log)
  }

  /** `buildConstructorConstrainedExecutable`: one record per `<constructor>`
      element; a constructor's cascaded return value is never traversed
      element-wise. */
  function BuildConstructorConstrainedExecutables(
    constructors: seq<ConstructorType>, bean: BeanClass, ctx: Context, log: OverrideLog)
    : (o: Outcome)
    ensures o.result.Success? ==>
              && |o.result.value| == |constructors|
              && forall i :: 0 <= i < |constructors| ==>
                   && o.result.value[i].source == Xml
                   && o.result.value[i].executable.Constructor?
                   && o.result.value[i].executable.declaringClass == bean.cls
                   && forall c :: c in o.result.value[i].cascadingTypeParameters ==> c.AnnotatedObject?
  {
    BuildFrom(constructors, bean, ctx, [], log)
  }
}
