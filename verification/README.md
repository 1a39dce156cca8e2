# Constrained-executable builder and Optional value extractor (Hibernate Validator), in Dafny

This project models two pieces of Hibernate Validator's engine.

The first is the XML builder of method and constructor metadata (`ConstrainedExecutableBuilder`). It receives the `<method>` or `<constructor>` elements of one bean from an XML constraint mapping. For each element, in order, it:

- resolves the parameter type names to classes;
- looks up the declared method or constructor with that name and signature;
- rejects a member that an earlier element of the same list already mapped;
- records the element's "ignore annotations" overrides;
- emits one `ConstrainedExecutable` tagged with the configuration source `XML`.

That record holds the parameter metadata, the cross-parameter constraints, the return-value constraints, the return-value group conversions and the cascading markers.

The second is `OptionalValueExtractor.extractValues`. It hands the value inside a `java.util.Optional` to the cascading validator's receiver, and hands over null when the reference is null or the optional is empty.

Files:

- `wrappers.dfy`: the `Option` and `Result` datatypes. `None` stands for Java's `null`; `Failure` stands for a thrown exception.
- `metadata.dfy`: the data model.
  - Classes and members: `Class`, `Executable`, and `BeanClass`, which holds the bean's declared-member index.
  - The XML descriptors: `ExecutableDescriptor`, narrowed to `MethodType` and `ConstructorType`.
  - The emitted records: `ConstrainedExecutable`, `MetaConstraint`, `ConstrainedParameter` and `CascadingTypeParameter`.
  - The recorded overrides: `IgnoreOverride`.
  - The three kinds of error: `BuildError`.
- `executable_builder.dfy`: the builder's operations. One fold, `BuildFrom`, serves both public entry points. That mirrors the two Java methods, which differ only in the lookup and the error they raise.
- `builder_properties.dfy`: lemmas about the whole descriptor list. They cover when the build succeeds, what it emits, which error it reports, what it records, and duplicate rejection.
- `optional_extraction.dfy`: the Optional extractor.

The collaborators appear as abstract pieces:

- The class loader is a partial map from type name to class, already scoped to the mapping's default package.
- Reflective member lookup is a declared-member index. Methods are keyed by `(name, parameter types)` and constructors by their parameter types. A member found in the index therefore always has the name and signature it was looked up by.
- The constraint builder and the parameter builder are represented by the records of what they were asked to build (`MetaConstraint` and `ConstrainedParameter`).
- The group-conversion builder is a function carried in `Context`.
- The annotation-processing options are the sequence of overrides recorded into them.

All operations are functions, so building the same descriptor list twice gives equal results by construction.

Three points of the code that the model follows closely:

- The emitted records carry the configuration source `XML`.
- "Defined twice" compares members with `Method.equals` and `Constructor.equals`, not with reference identity. Two methods are equal when they have the same declaring class, name, parameter types and return type. Two constructors are equal when they have the same declaring class and parameter types.
- When the build fails, the overrides of the elements processed before the failing one stay recorded, because the Java code records them before it throws. The failing element records nothing. `BuildFailure` states exactly this.

## Model

| member | source | states |
|---|---|---|
| `ExecutableBuilder.CreateParameterTypes` | engine/src/main/java/org/hibernate/validator/internal/xml/ConstrainedExecutableBuilder.java:302-319 | Resolution succeeds exactly when every parameter type name is known. The result then has one class per parameter, and position i holds the class of name i. Otherwise the error is the invalid-parameter-type error for the leftmost unknown name. |
| `ExecutableBuilder.ResolveExecutable` | engine/src/main/java/org/hibernate/validator/internal/xml/ConstrainedExecutableBuilder.java:81-103 | A resolved member belongs to the bean, is a method exactly when the element is a `<method>`, has the element's name, and has as its signature the resolved parameter types. That signature is a key of the declared-member index. Conversely, resolution succeeds exactly when every parameter type name is known and the bean declares a method of that name, or a constructor, with the resolved signature. |
| `ExecutableBuilder.ParseCrossParameterConstraints` | engine/src/main/java/org/hibernate/validator/internal/xml/ConstrainedExecutableBuilder.java:231-262 | No block gives no constraints. Otherwise there is one constraint per entry, in order, each `CROSS_PARAMETER` at the executable's cross-parameter location. An override is recorded only when the block's flag is present. |
| `ExecutableBuilder.ParseReturnValueType` | engine/src/main/java/org/hibernate/validator/internal/xml/ConstrainedExecutableBuilder.java:264-300 | No block gives no constraints, no group conversions and no cascading. Otherwise there is one `GENERIC` constraint per entry at the return-value location, and the group conversions are those the group-conversion builder returns. The value is cascaded exactly when `valid` is present. An override is recorded only when the flag is present. |
| `ExecutableBuilder.GetCascadedTypeParameters` | engine/src/main/java/org/hibernate/validator/internal/xml/ConstrainedExecutableBuilder.java:321-331 | A value that is not cascaded has no markers. A cascaded one has exactly one marker for the executable. That marker is "array element" exactly when the executable is a method returning an array. |
| `ExecutableBuilder.ParseExecutableType` | engine/src/main/java/org/hibernate/validator/internal/xml/ConstrainedExecutableBuilder.java:189-229 | The record has source XML, the given member and no type-argument constraints. Parameter i is built from descriptor parameter i. A present cross-parameter or return-value block yields one constraint per entry, built from that entry in order, with the block's kind and location. An absent block yields none. The group conversions are those the group-conversion builder returns for the return-value block, and there are none without that block. There is at most one cascading marker, and there is none exactly when there is no `valid` marker. The overrides are the cross-parameter block's, then the return value's. |
| `ExecutableBuilder.BuildFrom` | engine/src/main/java/org/hibernate/validator/internal/xml/ConstrainedExecutableBuilder.java:77-129 | On success there is one record per element. Record i is about the member element i resolves to and is the record assembled from element i. The members are pairwise distinct and none was processed earlier. |
| `ExecutableBuilder.BuildMethodConstrainedExecutables` | engine/src/main/java/org/hibernate/validator/internal/xml/ConstrainedExecutableBuilder.java:74-131 | On success there is one XML record per `<method>` element. Each is about a method of the bean with that element's name. |
| `ExecutableBuilder.BuildConstructorConstrainedExecutables` | engine/src/main/java/org/hibernate/validator/internal/xml/ConstrainedExecutableBuilder.java:133-187 | On success there is one XML record per `<constructor>` element. Each is about a constructor of the bean, and every cascading marker of a constructor is "annotated object". |
| `BuilderProperties.BuildSucceedsIff` | engine/src/main/java/org/hibernate/validator/internal/xml/ConstrainedExecutableBuilder.java:79-110 | The build succeeds exactly when every element resolves to a declared member and no member is resolved twice. |
| `BuilderProperties.BuildSuccess` | engine/src/main/java/org/hibernate/validator/internal/xml/ConstrainedExecutableBuilder.java:112-128 | A successful build emits, in element order, the record assembled from each element and its member. The recorded options are the prior ones followed by every element's overrides, in order. |
| `BuilderProperties.BuildFailure` | engine/src/main/java/org/hibernate/validator/internal/xml/ConstrainedExecutableBuilder.java:81-110 | A failed build reports the error of the first element that cannot be processed, when every element before it resolves to a distinct member. Exactly the overrides of the elements before it are recorded. |
| `BuilderProperties.FoldFails` | engine/src/main/java/org/hibernate/validator/internal/xml/ConstrainedExecutableBuilder.java:79-129 | Continuing after some processed members, a list that is not clean makes the fold stop at its first failing element with that element's error. |
| `BuilderProperties.FoldSucceeds` | engine/src/main/java/org/hibernate/validator/internal/xml/ConstrainedExecutableBuilder.java:79-129 | Continuing after some processed members, a clean list is processed completely. The fold emits the assembled records and appends every element's overrides. |
| `BuilderProperties.StepErrorPrecedence` | engine/src/main/java/org/hibernate/validator/internal/xml/ConstrainedExecutableBuilder.java:81-110 | Within one element, an unresolvable parameter type is reported first, naming the leftmost such type. A missing method or constructor comes next. "Defined twice" is reported only for a member that was found and already processed. |
| `BuilderProperties.SameMemberIffSameKey` | engine/src/main/java/org/hibernate/validator/internal/xml/ConstrainedExecutableBuilder.java:89-95 | Two resolved elements map the same member exactly when they are the same kind, have the same name for a method, and have the same resolved signature. |
| `BuilderProperties.CreateParameterTypesOnlyReadsNames` | engine/src/main/java/org/hibernate/validator/internal/xml/ConstrainedExecutableBuilder.java:306-316 | Parameter-type resolution depends only on the parameters' type names. |
| `BuilderProperties.SameSignatureTwiceRejected` | engine/src/main/java/org/hibernate/validator/internal/xml/ConstrainedExecutableBuilder.java:105-107 | Two elements of one list with the same kind, name and parameter type names always make the build fail. |
| `BuilderProperties.RepeatedMemberReportedAtSecond` | engine/src/main/java/org/hibernate/validator/internal/xml/ConstrainedExecutableBuilder.java:105-164 | When two elements map the same member and everything before the second is clean, the build fails on the second with the "defined twice" error for that member. |
| `BuilderProperties.FirstFailureUnique` | engine/src/main/java/org/hibernate/validator/internal/xml/ConstrainedExecutableBuilder.java:79-110 | At most one element is the first failure, so the reported error is determined. |
| `BuilderProperties.ConstructorMappedTwiceExample` | engine/src/main/java/org/hibernate/validator/internal/xml/ConstrainedExecutableBuilder.java:159-164 | Two `<constructor>` elements that both map the `(int)` constructor fail with "constructor defined twice" for that constructor. |
| `BuilderProperties.OverrideRecordedOnlyWhenFlagPresent` | engine/src/main/java/org/hibernate/validator/internal/xml/ConstrainedExecutableBuilder.java:113-297 | An element records an override for its member, its cross-parameter block or its return value exactly when the corresponding flag is present. Each override carries the flag's value and is about the element's own member. |
| `BuilderProperties.BuildWithoutFlagsKeepsOptions` | engine/src/main/java/org/hibernate/validator/internal/xml/ConstrainedExecutableBuilder.java:113-297 | When no element carries an ignore-annotations flag, the options are unchanged after the build, whether it succeeds or fails. This covers all four places that record an override: the method member, the constructor member, the cross-parameter block and the return value. |
| `OptionalExtraction.ExtractValues` | engine/src/main/java/org/hibernate/validator/internal/engine/cascading/OptionalValueExtractor.java:25-27 | The receiver gets exactly one value, and its node name is null. The value is null exactly when the reference is null or the optional is empty. Otherwise it is the contained value. |
| `OptionalExtraction.ExtractOfNullable` | engine/src/main/java/org/hibernate/validator/internal/engine/cascading/OptionalValueExtractor.java:26 | Wrapping a possibly-null value with `ofNullable` and extracting it hands the receiver that same value. |
| `OptionalExtraction.ExtractIsOrElseNull` | engine/src/main/java/org/hibernate/validator/internal/engine/cascading/OptionalValueExtractor.java:26 | On a non-null optional, the value handed over is `orElse(null)`. A null reference is handled exactly like an empty optional. |

## Left out

- The privileged-action wrapper `run` (`AccessController` / `SecurityManager`): lookups are plain function calls.
- Class loading through `ClassLoadingHelper.loadClass`: it is a map from type name to class. Qualifying a name with the default package happens inside that map and is not modelled.
- Reflective `getDeclaredMethod` and `getDeclaredConstructor` are replaced by the declared-member index of `BeanClass`.
- The internals of the constraint builder (`MetaConstraintBuilder`) are not modelled. A `MetaConstraint` records what it was asked to build. Errors that builder raises, such as an unknown annotation class, are not modelled.
- The internals of the parameter builder (`ConstrainedParameterBuilder`) are not modelled. A `ConstrainedParameter` records the executable, the position and the descriptor it is built from. The parameter-level ignore-annotations overrides it records are not modelled.
- The group-conversion builder (`GroupConversionBuilder`) is an uninterpreted function in `Context`. Its class loading and its errors are not modelled.
- `AnnotationProcessingOptionsImpl` is an append-only log of overrides. How later entries for the same member supersede earlier ones is that class's business and is not modelled.
- `ReflectionHelper.typeOf` and Java generic types: a cascading marker names the executable its type is taken from.
- The `HashSet`s of records and constraints are sequences in element order. `equals`/`hashCode` of `ConstrainedExecutable` and `MetaConstraint` are not modelled. The emitted members are proved pairwise distinct.
- Exception message text and logging: errors are `BuildError` values carrying the same data as the messages.
- The test `CurrencyValidatorForMonetaryAmountTest.java` is outside the modelled core. It exercises the currency validator through the money library and a full validator bootstrap.
