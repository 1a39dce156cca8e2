/** The data model of the XML executable-metadata builder: the classes and
    members it resolves names against, the mapping descriptors it reads, the
    constrained-executable records it emits, the annotation-ignore overrides
    it records, and the errors it raises. */
module Metadata {
  import opened Wrappers

  // ---------------------------------------------------------------------
  // Classes and declared members
  // ---------------------------------------------------------------------

  /** A class as handed out by the class loader. Only whether it is an array
      class matters to the builder (it decides how a cascaded return value is
      traversed); the rest of its identity is its name. */
  datatype Class = Named(name: string) | ArrayOf(component: Class)
  {
    predicate IsArray() { ArrayOf? }
  }

  /** A declared method or constructor, identified as `java.lang.reflect`
      identifies it: by declaring class, name, parameter types and (for a
      method) return type. */
  datatype Executable =
    | Method(declaringClass: Class, name: string, parameterTypes: seq<Class>, returnType: Class)
    | Constructor(declaringClass: Class, parameterTypes: seq<Class>)

  /** The element kind a constraint on an executable is reported against. */
  datatype ElementType = MethodElement | ConstructorElement

  function ElementTypeOf(e: Executable): ElementType
  {
    if e.Method? then MethodElement else ConstructorElement
  }

  /** The key a method is looked up by: its name and its erased signature. */
  datatype MethodKey = MethodKey(name: string, parameterTypes: seq<Class>)

  /** A bean class together with its declared-member index: for each declared
      method its key and return type, and the signature of each declared
      constructor. This replaces reflective `getDeclaredMethod` and
      `getDeclaredConstructor` lookups. */
  datatype BeanClass = BeanClass(
    cls: Class,
    declaredMethods: map<MethodKey, Class>,
    declaredConstructors: set<seq<Class>>)

  // ---------------------------------------------------------------------
  // Descriptors read from the XML mapping
  // ---------------------------------------------------------------------

  /** One `<constraint>` element: the annotation it names and its groups and
      payload, as unresolved names. */
  datatype ConstraintDecl = ConstraintDecl(annotation: string, groups: seq<string>, payload: seq<string>)

  /** One `<convert-group>` element. */
  datatype ConvertGroupDecl = ConvertGroupDecl(from: string, to: string)

  /** One `<parameter>` element. `valid` and `ignoreAnnotations` are absent
      when the XML leaves them out. */
  datatype ParameterDescriptor = ParameterDescriptor(
    typeName: string,
    constraints: seq<ConstraintDecl>,
    convertGroups: seq<ConvertGroupDecl>,
    valid: Option<string>,
    ignoreAnnotations: Option<bool>)

  /** A `<cross-parameter>` block. */
  datatype CrossParameterDescriptor = CrossParameterDescriptor(
    constraints: seq<ConstraintDecl>,
    ignoreAnnotations: Option<bool>)

  /** A `<return-value>` block. */
  datatype ReturnValueDescriptor = ReturnValueDescriptor(
    constraints: seq<ConstraintDecl>,
    convertGroups: seq<ConvertGroupDecl>,
    valid: Option<string>,
    ignoreAnnotations: Option<bool>)

  /** A `<method>` or `<constructor>` element. Both carry the same blocks; only
      a method has a name. */
  datatype ExecutableDescriptor =
    | MethodEntry(
        name: string,
        parameters: seq<ParameterDescriptor>,
        crossParameter: Option<CrossParameterDescriptor>,
        returnValue: Option<ReturnValueDescriptor>,
        ignoreAnnotations: Option<bool>)
    | ConstructorEntry(
        parameters: seq<ParameterDescriptor>,
        crossParameter: Option<CrossParameterDescriptor>,
        returnValue: Option<ReturnValueDescriptor>,
        ignoreAnnotations: Option<bool>)

  /** The XML binding's `MethodType`: a descriptor of a method. */
  type MethodType = d: ExecutableDescriptor | d.MethodEntry?
    witness MethodEntry("", [], None, None, None)

  /** The XML binding's `ConstructorType`: a descriptor of a constructor. */
  type ConstructorType = d: ExecutableDescriptor | d.ConstructorEntry?
    witness ConstructorEntry([], None, None, None)

  // ---------------------------------------------------------------------
  // Emitted metadata
  // ---------------------------------------------------------------------

  /** Where a constrained member's configuration came from. */
  datatype ConfigurationSource = Annotation | Xml | Api

  /** Whether a constraint validates one value or the whole argument list. */
  datatype ConstraintKind = Generic | CrossParameter

  /** The location a meta-constraint is bound to. */
  datatype ConstraintLocation =
    | CrossParameterLocation(executable: Executable)
    | ReturnValueLocation(executable: Executable)

  /** A constraint bound to a location. The descriptor the constraint builder
      derives from the declaration is abstracted: the record keeps exactly
      what the builder was asked to build from. */
  datatype MetaConstraint = MetaConstraint(
    location: ConstraintLocation,
    declaration: ConstraintDecl,
    elementType: ElementType,
    defaultPackage: string,
    kind: ConstraintKind)

  /** The metadata of one parameter, as the parameter builder derives it from
      the parameter's descriptor and position. */
  datatype ConstrainedParameter = ConstrainedParameter(
    executable: Executable,
    index: nat,
    declaration: ParameterDescriptor,
    defaultPackage: string)

  /** The declarations a sequence of constraints was built from, in order. */
  function Declarations(cs: seq<MetaConstraint>): seq<ConstraintDecl>
  {
    seq(|cs|, i requires 0 <= i < |cs| => cs[i].declaration)
  }

  /** A marker requesting cascaded validation of an executable's return value:
      into each element of a returned array, or into the returned object. The
      generic type it is taken from is that of the executable it names. */
  datatype CascadingTypeParameter =
    | ArrayElement(of: Executable)
    | AnnotatedObject(of: Executable)

  /** The metadata record the builder emits for one method or constructor. */
  datatype ConstrainedExecutable = ConstrainedExecutable(
    source: ConfigurationSource,
    executable: Executable,
    parameters: seq<ConstrainedParameter>,
    crossParameterConstraints: seq<MetaConstraint>,
    returnValueConstraints: seq<MetaConstraint>,
    typeArgumentConstraints: seq<MetaConstraint>,
    groupConversions: map<Class, Class>,
    cascadingTypeParameters: seq<CascadingTypeParameter>)

  // ---------------------------------------------------------------------
  // Annotation-processing overrides and errors
  // ---------------------------------------------------------------------

  /** One "ignore annotations" setting recorded with the annotation-processing
      options. */
  datatype IgnoreOverride =
    | OnMember(target: Executable, ignore: bool)
    | OnCrossParameter(target: Executable, ignore: bool)
    | OnReturnValue(target: Executable, ignore: bool)

  /** The annotation-processing options, as the sequence of overrides recorded
      into them, oldest first. */
  type OverrideLog = seq<IgnoreOverride>

  /** The exceptions the builder raises. */
  datatype BuildError =
    | InvalidParameterType(typeName: string, bean: Class)
    | BeanDoesNotContainMethod(bean: Class, methodName: string, parameterTypes: seq<Class>)
    | BeanDoesNotContainConstructor(bean: Class, parameterTypes: seq<Class>)
    | MethodDefinedTwice(duplicate: Executable, bean: Class)
    | ConstructorDefinedTwice(duplicate: Executable, bean: Class)

  /** What the builder is given besides the descriptors: the class loader's
      view of type names under the mapping's default package, the default
      package itself, and the group-conversion builder. */
  datatype Context = Context(
    classes: map<string, Class>,
    defaultPackage: string,
    buildGroupConversions: (seq<ConvertGroupDecl>, string) -> map<Class, Class>)
}
