/** Properties of the descriptor-list build as a whole: when it succeeds, what
    it emits and records then, which descriptor's error it reports when it
    fails, and that a member mapped twice is always rejected. */
module BuilderProperties {
  import opened Wrappers
  import opened Metadata
  import opened ExecutableBuilder

  // ---------------------------------------------------------------------
  // Reference definitions
  // ---------------------------------------------------------------------

  /** Every descriptor resolves to a declared member. */
  predicate AllResolve(ds: seq<ExecutableDescriptor>, bean: BeanClass, classes: map<string, Class>)
  {
    forall i :: 0 <= i < |ds| ==> ResolveExecutable(ds[i], bean, classes).Success?
  }

  /** The members the descriptors resolve to, position by position. */
  function ResolvedMembers(ds: seq<ExecutableDescriptor>, bean: BeanClass, classes: map<string, Class>)
    : (ms: seq<Executable>)
    requires AllResolve(ds, bean, classes)
    ensures |ms| == |ds|
    ensures forall i :: 0 <= i < |ds| ==> ResolveExecutable(ds[i], bean, classes) == Success(ms[i])
  {
    seq(|ds|, i requires 0 <= i < |ds| => ResolveExecutable(ds[i], bean, classes).value)
  }

  /** No member occurs twice. */
  predicate Distinct(s: seq<Executable>)
  {
    forall i, j :: 0 <= i < j < |s| ==> s[i] != s[j]
  }

  /** The descriptors can all be processed after the members `processed`:
      each resolves and no member repeats, among them or with `processed`. */
  predicate Clean(ds: seq<ExecutableDescriptor>, bean: BeanClass, classes: map<string, Class>, processed: seq<Executable>)
  {
    AllResolve(ds, bean, classes) && Distinct(processed + ResolvedMembers(ds, bean, classes))
  }

  /** The error a single descriptor raises when the members `processed` were
      mapped before it, if any. */
  function StepError(d: ExecutableDescriptor, bean: BeanClass, classes: map<string, Class>, processed: seq<Executable>)
    : Option<BuildError>
  {
    match ResolveExecutable(d, bean, classes)
    case Failure(e) => Some(e)
    case Success(m) => if m in processed then Some(DefinedTwice(m, bean.cls)) else None
  }

  /** Descriptor `k` is the first that cannot be processed, and it raises `e`. */
  predicate FailsFirstAt(
    ds: seq<ExecutableDescriptor>, bean: BeanClass, classes: map<string, Class>, processed: seq<Executable>,
    k: int, e: BuildError)
  {
    && 0 <= k < |ds|
    && Clean(ds[..k], bean, classes, processed)
    && StepError(ds[k], bean, classes, processed + ResolvedMembers(ds[..k], bean, classes)) == Some(e)
  }

  /** The records the descriptors yield for their members. */
  function Assembled(ds: seq<ExecutableDescriptor>, ms: seq<Executable>, ctx: Context): seq<ConstrainedExecutable>
    requires |ds| == |ms|
  {
    seq(|ds|, i requires 0 <= i < |ds| => ParseExecutableType(ds[i], ms[i], ctx).executable)
  }

  /** The overrides the descriptors record for their members, in order. */
  function AllOverrides(ds: seq<ExecutableDescriptor>, ms: seq<Executable>): OverrideLog
    requires |ds| == |ms|
    decreases |ds|
  {
    if |ds| == 0 then [] else OverridesFor(ds[0], ms[0]) + AllOverrides(ds[1..], ms[1..])
  }

  /** The parameter type names of a descriptor, in order. */
  function TypeNames(ps: seq<ParameterDescriptor>): seq<string>
  {
    seq(|ps|, i requires 0 <= i < |ps| => ps[i].typeName)
  }

  /** Two descriptors name the same member: both methods of one name, or both
      constructors, with the same parameter type names. */
  predicate SameSignature(d1: ExecutableDescriptor, d2: ExecutableDescriptor)
  {
    && (d1.MethodEntry? <==> d2.MethodEntry?)
    && (d1.MethodEntry? ==> d1.name == d2.name)
    && TypeNames(d1.parameters) == TypeNames(d2.parameters)
  }

  // ---------------------------------------------------------------------
  // Sequence facts used by the fold proofs
  // ---------------------------------------------------------------------

  lemma ResolvedMembersCons(ds: seq<ExecutableDescriptor>, bean: BeanClass, classes: map<string, Class>)
    requires |ds| > 0 && ResolveExecutable(ds[0], bean, classes).Success?
    ensures AllResolve(ds, bean, classes) <==> AllResolve(ds[1..], bean, classes)
    ensures AllResolve(ds, bean, classes) ==>
              ResolvedMembers(ds, bean, classes)
              == [ResolveExecutable(ds[0], bean, classes).value] + ResolvedMembers(ds[1..], bean, classes)
  {
  }


  lemma PrefixCons(ds: seq<ExecutableDescriptor>, k: nat)
    requires 0 < k <= |ds|
    ensures ds[..k][0] == ds[0]
    ensures ds[..k][1..] == ds[1..][..k - 1]
  {
  }

  // ---------------------------------------------------------------------
  // The fold, characterised
  // ---------------------------------------------------------------------

  /** One step of the fold: a descriptor that resolves to a member not yet
      processed records its overrides and hands the rest of the list on. */
  lemma BuildFromStep(
    ds: seq<ExecutableDescriptor>, bean: BeanClass, ctx: Context, processed: seq<Executable>, log: OverrideLog,
    m: Executable)
    requires |ds| > 0 && ResolveExecutable(ds[0], bean, ctx.classes) == Success(m) && m !in processed
    ensures var rest := BuildFrom(ds[1..], bean, ctx, processed + [m], log + OverridesFor(ds[0], m));
            BuildFrom(ds, bean, ctx, processed, log)
            == Outcome(
                 if rest.result.Success? then Success([ParseExecutableType(ds[0], m, ctx).executable] + rest.result.value)
                 else Failure(rest.result.error),
                 rest.log)
  {
    StepLog(ds[0], m, ctx, log);
  }

  /** The log a step hands on is the old log followed by the descriptor's
      overrides. */
  lemma StepLog(d: ExecutableDescriptor, m: Executable, ctx: Context, log: OverrideLog)
    ensures log + MemberOverrides(d, m) + ParseExecutableType(d, m, ctx).overrides == log + OverridesFor(d, m)
  {
  }

  lemma DistinctSnoc(s: seq<Executable>, m: Executable)
    requires Distinct(s) && m !in s
    ensures Distinct(s + [m])
  {
  }

  /** A member followed by itself later is not distinct. */
  lemma RepeatBreaksDistinct(a: seq<Executable>, m: Executable, b: seq<Executable>)
    requires m in a
    ensures !Distinct(a + [m] + b)
  {
    var p :| 0 <= p < |a| && a[p] == m;
    var all := a + [m] + b;
    assert all[p] == all[|a|];
  }

  /** Processing a list after `processed` is clean exactly when its head's
      member is new and the tail is clean after `processed` and that member. */
  lemma CleanCons(ds: seq<ExecutableDescriptor>, bean: BeanClass, classes: map<string, Class>, processed: seq<Executable>)
    requires |ds| > 0 && ResolveExecutable(ds[0], bean, classes).Success?
    ensures var m := ResolveExecutable(ds[0], bean, classes).value;
            && (Clean(ds, bean, classes, processed) <==> Clean(ds[1..], bean, classes, processed + [m]))
            && (Clean(ds[1..], bean, classes, processed + [m]) ==> m !in processed)
  {
    var m := ResolveExecutable(ds[0], bean, classes).value;
    ResolvedMembersCons(ds, bean, classes);
    if AllResolve(ds, bean, classes) {
      var rest := ResolvedMembers(ds[1..], bean, classes);
      assert processed + ResolvedMembers(ds, bean, classes) == processed + [m] + rest;
      if m in processed {
        RepeatBreaksDistinct(processed, m, rest);
      }
    }
  }

  lemma AssembledCons(ds: seq<ExecutableDescriptor>, ms: seq<Executable>, ctx: Context)
    requires |ds| == |ms| > 0
    ensures Assembled(ds, ms, ctx) == [ParseExecutableType(ds[0], ms[0], ctx).executable] + Assembled(ds[1..], ms[1..], ctx)
  {
    var whole := Assembled(ds, ms, ctx);
    var cons := [ParseExecutableType(ds[0], ms[0], ctx).executable] + Assembled(ds[1..], ms[1..], ctx);
    assert |whole| == |cons|;
    forall i | 0 <= i < |whole|
      ensures whole[i] == cons[i]
    {
      if i > 0 {
        assert ds[1..][i - 1] == ds[i] && ms[1..][i - 1] == ms[i];
      }
    }
    assert whole == cons;
  }

  lemma AppendAssoc(a: OverrideLog, b: OverrideLog, c: OverrideLog)
    ensures a + (b + c) == (a + b) + c
  {
  }

  /** When every descriptor can be processed, the fold emits the assembled
      records and records every descriptor's overrides, in order. */
  lemma {:induction false} FoldSucceeds(
    ds: seq<ExecutableDescriptor>, bean: BeanClass, ctx: Context, processed: seq<Executable>, log: OverrideLog)
    requires Clean(ds, bean, ctx.classes, processed)
    ensures var ms := ResolvedMembers(ds, bean, ctx.classes);
            BuildFrom(ds, bean, ctx, processed, log) == Outcome(Success(Assembled(ds, ms, ctx)), log + AllOverrides(ds, ms))
    decreases |ds|
  {
    var classes := ctx.classes;
    var ms := ResolvedMembers(ds, bean, classes);
    if |ds| == 0 {
      assert Assembled(ds, ms, ctx) == [];
    } else {
      var m := ms[0];
      CleanCons(ds, bean, classes, processed);
      ResolvedMembersCons(ds, bean, classes);
      var next := log + OverridesFor(ds[0], m);
      FoldSucceeds(ds[1..], bean, ctx, processed + [m], next);
      BuildFromStep(ds, bean, ctx, processed, log, m);
      AssembledCons(ds, ms, ctx);
      AppendAssoc(log, OverridesFor(ds[0], m), AllOverrides(ds[1..], ms[1..]));
    }
  }

  /** A descriptor that cannot be processed at the head of the list is the
      first failure. */
  lemma FailsAtHead(
    ds: seq<ExecutableDescriptor>, bean: BeanClass, ctx: Context, processed: seq<Executable>, log: OverrideLog)
    requires Distinct(processed)
    requires |ds| > 0 && StepError(ds[0], bean, ctx.classes, processed).Some?
    ensures var e := StepError(ds[0], bean, ctx.classes, processed).value;
            && FailsFirstAt(ds, bean, ctx.classes, processed, 0, e)
            && BuildFrom(ds, bean, ctx, processed, log)
               == Outcome(Failure(e), log + AllOverrides(ds[..0], ResolvedMembers(ds[..0], bean, ctx.classes)))
  {
  }

  /** Shifting a first failure of the tail one position to the right makes it
      the first failure of the whole list, and the overrides of the prefix
      before it are the head's followed by those of the tail's prefix. */
  lemma FailsFirstAtCons(
    ds: seq<ExecutableDescriptor>, bean: BeanClass, classes: map<string, Class>, processed: seq<Executable>,
    m: Executable, k': int, e: BuildError)
    requires |ds| > 0 && ResolveExecutable(ds[0], bean, classes) == Success(m) && m !in processed
    requires Distinct(processed)
    requires FailsFirstAt(ds[1..], bean, classes, processed + [m], k', e)
    ensures FailsFirstAt(ds, bean, classes, processed, k' + 1, e)
    ensures AllOverrides(ds[..k' + 1], ResolvedMembers(ds[..k' + 1], bean, classes))
            == OverridesFor(ds[0], m) + AllOverrides(ds[1..][..k'], ResolvedMembers(ds[1..][..k'], bean, classes))
  {
    var k := k' + 1;
    PrefixCons(ds, k);
    ResolvedMembersCons(ds[..k], bean, classes);
    CleanCons(ds[..k], bean, classes, processed);
    var ms := ResolvedMembers(ds[..k], bean, classes);
    assert processed + ms == (processed + [m]) + ResolvedMembers(ds[1..][..k'], bean, classes);
    assert ds[k] == ds[1..][k'];
  }

  /** When some descriptor cannot be processed, the fold stops at the first
      such descriptor, reports its error, and keeps exactly the overrides of
      the descriptors before it. */
  lemma {:induction false} FoldFails(
    ds: seq<ExecutableDescriptor>, bean: BeanClass, ctx: Context, processed: seq<Executable>, log: OverrideLog)
    requires Distinct(processed)
    requires !Clean(ds, bean, ctx.classes, processed)
    ensures exists k, e ::
              && FailsFirstAt(ds, bean, ctx.classes, processed, k, e)
              && BuildFrom(ds, bean, ctx, processed, log)
                 == Outcome(Failure(e), log + AllOverrides(ds[..k], ResolvedMembers(ds[..k], bean, ctx.classes)))
    decreases |ds|
  {
    var classes := ctx.classes;
    if |ds| == 0 {
      assert false;
    } else if StepError(ds[0], bean, classes, processed).Some? {
      FailsAtHead(ds, bean, ctx, processed, log);
    } else {
      var m := ResolveExecutable(ds[0], bean, classes).value;
      var next := log + OverridesFor(ds[0], m);
      CleanCons(ds, bean, classes, processed);
      DistinctSnoc(processed, m);
      FoldFails(ds[1..], bean, ctx, processed + [m], next);
      BuildFromStep(ds, bean, ctx, processed, log, m);
      var k', e :| && FailsFirstAt(ds[1..], bean, classes, processed + [m], k', e)
                   && BuildFrom(ds[1..], bean, ctx, processed + [m], next)
                      == Outcome(Failure(e), next + AllOverrides(ds[1..][..k'], ResolvedMembers(ds[1..][..k'], bean, classes)));
      FailsFirstAtCons(ds, bean, classes, processed, m, k', e);
      AppendAssoc(log, OverridesFor(ds[0], m), AllOverrides(ds[1..][..k'], ResolvedMembers(ds[1..][..k'], bean, classes)));
    }
  }

  // ---------------------------------------------------------------------
  // The build of a whole descriptor list
  // ---------------------------------------------------------------------

  /** The build succeeds exactly when every descriptor resolves to a declared
      member and no member is resolved twice. */
  lemma BuildSucceedsIff(ds: seq<ExecutableDescriptor>, bean: BeanClass, ctx: Context, log: OverrideLog)
    ensures BuildFrom(ds, bean, ctx, [], log).result.Success?
            <==> AllResolve(ds, bean, ctx.classes) && Distinct(ResolvedMembers(ds, bean, ctx.classes))
  {
    if AllResolve(ds, bean, ctx.classes) {
      assert [] + ResolvedMembers(ds, bean, ctx.classes) == ResolvedMembers(ds, bean, ctx.classes);
    }
    if Clean(ds, bean, ctx.classes, []) {
      FoldSucceeds(ds, bean, ctx, [], log);
    } else {
      FoldFails(ds, bean, ctx, [], log);
    }
  }

  /** A successful build emits, for descriptor `i`, the record assembled from
      it and the member it resolves to, and records the overrides of all
      descriptors in order. */
  lemma BuildSuccess(ds: seq<ExecutableDescriptor>, bean: BeanClass, ctx: Context, log: OverrideLog)
    requires AllResolve(ds, bean, ctx.classes) && Distinct(ResolvedMembers(ds, bean, ctx.classes))
    ensures var ms := ResolvedMembers(ds, bean, ctx.classes);
            BuildFrom(ds, bean, ctx, [], log) == Outcome(Success(Assembled(ds, ms, ctx)), log + AllOverrides(ds, ms))
  {
    assert [] + ResolvedMembers(ds, bean, ctx.classes) == ResolvedMembers(ds, bean, ctx.classes);
    FoldSucceeds(ds, bean, ctx, [], log);
  }

  /** A failed build reports the error of the first descriptor that cannot be
      processed, and the overrides recorded are exactly those of the
      descriptors before it: nothing of the failing descriptor is recorded. */
  lemma BuildFailure(ds: seq<ExecutableDescriptor>, bean: BeanClass, ctx: Context, log: OverrideLog, e: BuildError)
    requires BuildFrom(ds, bean, ctx, [], log).result == Failure(e)
    ensures exists k ::
              && FailsFirstAt(ds, bean, ctx.classes, [], k, e)
              && BuildFrom(ds, bean, ctx, [], log).log
                 == log + AllOverrides(ds[..k], ResolvedMembers(ds[..k], bean, ctx.classes))
  {
    if AllResolve(ds, bean, ctx.classes) {
      assert [] + ResolvedMembers(ds, bean, ctx.classes) == ResolvedMembers(ds, bean, ctx.classes);
    }
    if Clean(ds, bean, ctx.classes, []) {
      FoldSucceeds(ds, bean, ctx, [], log);
    } else {
      FoldFails(ds, bean, ctx, [], log);
    }
  }

  /** Within one descriptor, an unresolvable parameter type is reported before
      the member lookup, a missing member before the duplicate check, and a
      duplicate only for a member that was found and processed before. */
  lemma StepErrorPrecedence(d: ExecutableDescriptor, bean: BeanClass, classes: map<string, Class>, processed: seq<Executable>)
    ensures !AllTypesResolve(d.parameters, classes) ==>
              exists k :: && FirstUnresolvable(d.parameters, classes, k)
                          && StepError(d, bean, classes, processed) == Some(InvalidParameterType(d.parameters[k].typeName, bean.cls))
    ensures AllTypesResolve(d.parameters, classes) && d.MethodEntry? ==>
              var types := TypesOf(d.parameters, classes);
              MethodKey(d.name, types) !in bean.declaredMethods ==>
                StepError(d, bean, classes, processed) == Some(BeanDoesNotContainMethod(bean.cls, d.name, types))
    ensures AllTypesResolve(d.parameters, classes) && d.ConstructorEntry? ==>
              var types := TypesOf(d.parameters, classes);
              types !in bean.declaredConstructors ==>
                StepError(d, bean, classes, processed) == Some(BeanDoesNotContainConstructor(bean.cls, types))
    ensures StepError(d, bean, classes, processed).Some?
            && (StepError(d, bean, classes, processed).value.MethodDefinedTwice?
                || StepError(d, bean, classes, processed).value.ConstructorDefinedTwice?) ==>
              && ResolveExecutable(d, bean, classes).Success?
              && ResolveExecutable(d, bean, classes).value in processed
  {
    var r := CreateParameterTypes(d.parameters, bean.cls, classes);
    if AllTypesResolve(d.parameters, classes) {
      assert r.value == TypesOf(d.parameters, classes);
    } else {
      var k :| FirstUnresolvable(d.parameters, classes, k) && r.error == InvalidParameterType(d.parameters[k].typeName, bean.cls);
      assert ResolveExecutable(d, bean, classes) == Failure(r.error);
    }
  }

  // ---------------------------------------------------------------------
  // Duplicates
  // ---------------------------------------------------------------------

  /** Parameter-type resolution depends only on the type names. */
  lemma {:induction false} CreateParameterTypesOnlyReadsNames(
    ps: seq<ParameterDescriptor>, qs: seq<ParameterDescriptor>, bean: Class, classes: map<string, Class>)
    requires TypeNames(ps) == TypeNames(qs)
    ensures CreateParameterTypes(ps, bean, classes) == CreateParameterTypes(qs, bean, classes)
    decreases |ps|
  {
    assert |ps| == |TypeNames(ps)| == |qs|;
    if |ps| > 0 {
      assert ps[0].typeName == TypeNames(ps)[0] == qs[0].typeName;
      assert TypeNames(ps[1..]) == TypeNames(ps)[1..] == TypeNames(qs)[1..] == TypeNames(qs[1..]);
      CreateParameterTypesOnlyReadsNames(ps[1..], qs[1..], bean, classes);
    }
  }

  /** Two resolved descriptors name the same member exactly when they name
      the same kind of member with the same name and resolved signature. */
  lemma SameMemberIffSameKey(d1: ExecutableDescriptor, d2: ExecutableDescriptor, bean: BeanClass, classes: map<string, Class>)
    requires ResolveExecutable(d1, bean, classes).Success? && ResolveExecutable(d2, bean, classes).Success?
    ensures var m1 := ResolveExecutable(d1, bean, classes).value;
            var m2 := ResolveExecutable(d2, bean, classes).value;
            m1 == m2
            <==> && (d1.MethodEntry? <==> d2.MethodEntry?)
                 && (d1.MethodEntry? ==> d1.name == d2.name)
                 && m1.parameterTypes == m2.parameterTypes
  {
  }

  /** Two descriptors in one list that name the same member (by name and
      parameter type names) always make the build fail. */
  lemma SameSignatureTwiceRejected(
    ds: seq<ExecutableDescriptor>, bean: BeanClass, ctx: Context, log: OverrideLog, i: nat, j: nat)
    requires i < j < |ds| && SameSignature(ds[i], ds[j])
    ensures BuildFrom(ds, bean, ctx, [], log).result.Failure?
  {
    BuildSucceedsIff(ds, bean, ctx, log);
    CreateParameterTypesOnlyReadsNames(ds[i].parameters, ds[j].parameters, bean.cls, ctx.classes);
    if AllResolve(ds, bean, ctx.classes) {
      var ms := ResolvedMembers(ds, bean, ctx.classes);
      assert ResolveExecutable(ds[i], bean, ctx.classes) == ResolveExecutable(ds[j], bean, ctx.classes);
      assert ms[i] == ms[j];
    }
  }

  /** When a member is mapped by two descriptors and everything before the
      second is clean, the second is rejected as defined twice. */
  lemma RepeatedMemberReportedAtSecond(
    ds: seq<ExecutableDescriptor>, bean: BeanClass, ctx: Context, log: OverrideLog, i: nat, j: nat)
    requires i < j < |ds|
    requires Clean(ds[..j], bean, ctx.classes, [])
    requires ResolveExecutable(ds[j], bean, ctx.classes) == ResolveExecutable(ds[i], bean, ctx.classes)
    ensures var m := ResolveExecutable(ds[j], bean, ctx.classes).value;
            BuildFrom(ds, bean, ctx, [], log).result == Failure(DefinedTwice(m, bean.cls))
  {
    var classes := ctx.classes;
    var m := ResolveExecutable(ds[j], bean, classes).value;
    RepeatFailsFirstAt(ds, bean, classes, i, j);
    BuildSucceedsIff(ds, bean, ctx, log);
    if AllResolve(ds, bean, classes) {
      var all := ResolvedMembers(ds, bean, classes);
      assert all[i] == all[j];
    }
    BuildFailure(ds, bean, ctx, log, BuildFrom(ds, bean, ctx, [], log).result.error);
    var e := BuildFrom(ds, bean, ctx, [], log).result.error;
    var k :| FailsFirstAt(ds, bean, classes, [], k, e);
    FirstFailureUnique(ds, bean, classes, [], k, e, j, DefinedTwice(m, bean.cls));
  }

  /** Under the same conditions, the second descriptor is the first one that
      cannot be processed. */
  lemma RepeatFailsFirstAt(
    ds: seq<ExecutableDescriptor>, bean: BeanClass, classes: map<string, Class>, i: nat, j: nat)
    requires i < j < |ds|
    requires Clean(ds[..j], bean, classes, [])
    requires ResolveExecutable(ds[j], bean, classes) == ResolveExecutable(ds[i], bean, classes)
    ensures ResolveExecutable(ds[j], bean, classes).Success?
    ensures FailsFirstAt(ds, bean, classes, [], j, DefinedTwice(ResolveExecutable(ds[j], bean, classes).value, bean.cls))
  {
    var pre := ResolvedMembers(ds[..j], bean, classes);
    assert ds[..j][i] == ds[i];
    assert [] + pre == pre;
    StepErrorOfRepeat(ds[j], bean, classes, [] + pre, i);
  }

  /** A descriptor resolving to a member processed before is rejected as
      defined twice. */
  lemma StepErrorOfRepeat(d: ExecutableDescriptor, bean: BeanClass, classes: map<string, Class>, processed: seq<Executable>, k: nat)
    requires k < |processed| && ResolveExecutable(d, bean, classes) == Success(processed[k])
    ensures StepError(d, bean, classes, processed) == Some(DefinedTwice(processed[k], bean.cls))
  {
  }

  /** Two `<constructor>` elements that both map the bean's `(int)`
      constructor: the build fails on the second as defined twice. */
  lemma ConstructorMappedTwiceExample(ctx: Context, log: OverrideLog)
    requires ctx.classes == map["int" := Named("int")]
    ensures var bean := BeanClass(Named("Car"), map[], {[Named("int")]});
            var c := ConstructorEntry([ParameterDescriptor("int", [], [], None, None)], None, None, None);
            BuildConstructorConstrainedExecutables([c, c], bean, ctx, log).result
            == Failure(ConstructorDefinedTwice(Constructor(Named("Car"), [Named("int")]), Named("Car")))
  {
    var bean := BeanClass(Named("Car"), map[], {[Named("int")]});
    var p := ParameterDescriptor("int", [], [], None, None);
    var c := ConstructorEntry([p], None, None, None);
    var ds: seq<ExecutableDescriptor> := [c, c];
    var types := CreateParameterTypes([p], bean.cls, ctx.classes);
    assert [p][0].typeName in ctx.classes;
    assert AllTypesResolve([p], ctx.classes);
    assert types.value[0] == Named("int");
    assert types.Success? && |types.value| == 1;
    assert types.value == [Named("int")];
    var m := Constructor(Named("Car"), [Named("int")]);
    assert ResolveExecutable(c, bean, ctx.classes) == Success(m);
    assert ds[..1] == [c];
    assert ResolvedMembers(ds[..1], bean, ctx.classes) == [m];
    assert Clean(ds[..1], bean, ctx.classes, []) by {
      assert [] + [m] == [m];
    }
    RepeatedMemberReportedAtSecond(ds, bean, ctx, log, 0, 1);
  }

  /** At most one descriptor is the first to fail. */
  lemma FirstFailureUnique(
    ds: seq<ExecutableDescriptor>, bean: BeanClass, classes: map<string, Class>, processed: seq<Executable>,
    k1: int, e1: BuildError, k2: int, e2: BuildError)
    requires FailsFirstAt(ds, bean, classes, processed, k1, e1)
    requires FailsFirstAt(ds, bean, classes, processed, k2, e2)
    ensures k1 == k2 && e1 == e2
  {
    if k1 < k2 {
      StepErrorWithinCleanPrefix(ds, bean, classes, processed, k1, k2);
    } else if k2 < k1 {
      StepErrorWithinCleanPrefix(ds, bean, classes, processed, k2, k1);
    }
  }

  /** A descriptor strictly inside a clean prefix raises no error. */
  lemma StepErrorWithinCleanPrefix(
    ds: seq<ExecutableDescriptor>, bean: BeanClass, classes: map<string, Class>, processed: seq<Executable>,
    k: int, n: int)
    requires 0 <= k < n <= |ds|
    requires Clean(ds[..n], bean, classes, processed)
    ensures AllResolve(ds[..k], bean, classes)
    ensures StepError(ds[k], bean, classes, processed + ResolvedMembers(ds[..k], bean, classes)) == None
  {
    var ms := ResolvedMembers(ds[..n], bean, classes);
    assert forall i :: 0 <= i < k ==> ds[..k][i] == ds[..n][i];
    var pre := ResolvedMembers(ds[..k], bean, classes);
    assert pre == ms[..k];
    assert ds[k] == ds[..n][k];
    var m := ms[k];
    assert ResolveExecutable(ds[k], bean, classes) == Success(m);
    var all := processed + ms;
    assert all == processed + pre + [m] + ms[k + 1..];
    if m in processed + pre {
      RepeatBreaksDistinct(processed + pre, m, ms[k + 1..]);
    }
  }

  // ---------------------------------------------------------------------
  // Overrides
  // ---------------------------------------------------------------------

  /** A descriptor records an override for its member, its cross-parameter
      block or its return value exactly when the corresponding flag is
      present, with the flag's value, and about its own member only. */
  lemma OverrideRecordedOnlyWhenFlagPresent(d: ExecutableDescriptor, m: Executable)
    ensures forall o :: o in OverridesFor(d, m) ==> o.target == m
    ensures forall o :: o in OverridesFor(d, m) && o.OnMember? ==> d.ignoreAnnotations == Some(o.ignore)
    ensures d.ignoreAnnotations.Some? ==> OnMember(m, d.ignoreAnnotations.value) in OverridesFor(d, m)
    ensures forall o :: o in OverridesFor(d, m) && o.OnCrossParameter? ==>
              d.crossParameter.Some? && d.crossParameter.value.ignoreAnnotations == Some(o.ignore)
    ensures d.crossParameter.Some? && d.crossParameter.value.ignoreAnnotations.Some? ==>
              OnCrossParameter(m, d.crossParameter.value.ignoreAnnotations.value) in OverridesFor(d, m)
    ensures forall o :: o in OverridesFor(d, m) && o.OnReturnValue? ==>
              d.returnValue.Some? && d.returnValue.value.ignoreAnnotations == Some(o.ignore)
    ensures d.returnValue.Some? && d.returnValue.value.ignoreAnnotations.Some? ==>
              OnReturnValue(m, d.returnValue.value.ignoreAnnotations.value) in OverridesFor(d, m)
  {
  }

  /** A descriptor without any `ignore-annotations` flag. */
  predicate NoIgnoreFlags(d: ExecutableDescriptor)
  {
    && d.ignoreAnnotations.None?
    && (d.crossParameter.Some? ==> d.crossParameter.value.ignoreAnnotations.None?)
    && (d.returnValue.Some? ==> d.returnValue.value.ignoreAnnotations.None?)
  }

  /** When no descriptor carries an `ignore-annotations` flag, the build
      leaves the annotation-processing options as they were, whether it
      succeeds or fails. */
  lemma {:induction false} BuildWithoutFlagsKeepsOptions(
    ds: seq<ExecutableDescriptor>, bean: BeanClass, ctx: Context, processed: seq<Executable>, log: OverrideLog)
    requires forall i :: 0 <= i < |ds| ==> NoIgnoreFlags(ds[i])
    ensures BuildFrom(ds, bean, ctx, processed, log).log == log
    decreases |ds|
  {
    if |ds| > 0 {
      match ResolveExecutable(ds[0], bean, ctx.classes)
      case Failure(_) =>
      case Success(m) =>
        if m !in processed {
          assert NoIgnoreFlags(ds[0]);
          var parsed := ParseExecutableType(ds[0], m, ctx);
          assert parsed.overrides == [];
          assert log + parsed.overrides == log;
          assert forall i :: 0 <= i < |ds[1..]| ==> ds[1..][i] == ds[i + 1];
          BuildWithoutFlagsKeepsOptions(ds[1..], bean, ctx, processed + [m], log);
        }
    }
  }
}
