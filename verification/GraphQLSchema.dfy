/** The schema of the task service twice over: the types it declares, and the choices of the generated executor for
    each field (which marshaller, whether a null invalidates the parent object). */
module GraphQLSchema {
  import Store = TaskStore

  datatype Option<+T> = None | Some(value: T)

  datatype ObjectType =
    | QueryType | MutationType | TaskType
    | SchemaType | TypeType | FieldType | InputValueType | EnumValueType | DirectiveType

  function TypeName(o: ObjectType): string {
    match o
    case QueryType => "Query"
    case MutationType => "Mutation"
    case TaskType => "Task"
    case SchemaType => "__Schema"
    case TypeType => "__Type"
    case FieldType => "__Field"
    case InputValueType => "__InputValue"
    case EnumValueType => "__EnumValue"
    case DirectiveType => "__Directive"
  }

  datatype TypeRef = Leaf | Obj(o: ObjectType) | ListOf(element: TypeRef) | NonNull(inner: TypeRef)

  datatype FieldName =
    | Typename
    | Tasks | TaskById | TypeByName | SchemaRoot
    | CreateTask | UpdateTask | DeleteTask
    | Id | Title | Description | Done
    | Types | QueryTypeOf | MutationTypeOf | SubscriptionTypeOf | Directives
    | Kind | Name | Fields | Interfaces | PossibleTypes | EnumValues | InputFields | OfType | SpecifiedByURL
    | Args | FieldTypeOf | IsDeprecated | DeprecationReason | DefaultValue | Locations | IsRepeatable

  /** The declared type of each field; a list's elements are never nullable. */
  function DeclaredType(o: ObjectType, n: FieldName): Option<TypeRef> {
    match o
    case QueryType => (
      match n
      case Tasks => Some(NonNull(ListOf(NonNull(Obj(TaskType)))))
      case TaskById => Some(Obj(TaskType))
      case TypeByName => Some(Obj(TypeType))
      case SchemaRoot => Some(Obj(SchemaType))
      case _ => None)
    case MutationType => (
      match n
      case CreateTask => Some(NonNull(Obj(TaskType)))
      case UpdateTask => Some(NonNull(Obj(TaskType)))
      case DeleteTask => Some(NonNull(Leaf))
      case _ => None)
    case TaskType => (
      match n
      case Id => Some(NonNull(Leaf))
      case Title => Some(NonNull(Leaf))
      case Description => Some(Leaf)
      case Done => Some(NonNull(Leaf))
      case _ => None)
    case SchemaType => (
      match n
      case Description => Some(Leaf)
      case Types => Some(NonNull(ListOf(NonNull(Obj(TypeType)))))
      case QueryTypeOf => Some(NonNull(Obj(TypeType)))
      case MutationTypeOf => Some(Obj(TypeType))
      case SubscriptionTypeOf => Some(Obj(TypeType))
      case Directives => Some(NonNull(ListOf(NonNull(Obj(DirectiveType)))))
      case _ => None)
    case TypeType => (
      match n
      case Kind => Some(NonNull(Leaf))
      case Name => Some(Leaf)
      case Description => Some(Leaf)
      case Fields => Some(ListOf(NonNull(Obj(FieldType))))
      case Interfaces => Some(ListOf(NonNull(Obj(TypeType))))
      case PossibleTypes => Some(ListOf(NonNull(Obj(TypeType))))
      case EnumValues => Some(ListOf(NonNull(Obj(EnumValueType))))
      case InputFields => Some(ListOf(NonNull(Obj(InputValueType))))
      case OfType => Some(Obj(TypeType))
      case SpecifiedByURL => Some(Leaf)
      case _ => None)
    case FieldType => (
      match n
      case Name => Some(NonNull(Leaf))
      case Description => Some(Leaf)
      case Args => Some(NonNull(ListOf(NonNull(Obj(InputValueType)))))
      case FieldTypeOf => Some(NonNull(Obj(TypeType)))
      case IsDeprecated => Some(NonNull(Leaf))
      case DeprecationReason => Some(Leaf)
      case _ => None)
    case InputValueType => (
      match n
      case Name => Some(NonNull(Leaf))
      case Description => Some(Leaf)
      case FieldTypeOf => Some(NonNull(Obj(TypeType)))
      case DefaultValue => Some(Leaf)
      case _ => None)
    case EnumValueType => (
      match n
      case Name => Some(NonNull(Leaf))
      case Description => Some(Leaf)
      case IsDeprecated => Some(NonNull(Leaf))
      case DeprecationReason => Some(Leaf)
      case _ => None)
    case DirectiveType => (
      match n
      case Name => Some(NonNull(Leaf))
      case Description => Some(Leaf)
      case Locations => Some(NonNull(ListOf(NonNull(Leaf))))
      case Args => Some(NonNull(ListOf(NonNull(Obj(InputValueType)))))
      case IsRepeatable => Some(NonNull(Leaf))
      case _ => None)
  }

  // ---- The generated code -------------------------------------------------------------------------------

  datatype Element = LeafElement | ObjectElement(o: ObjectType)

  /** A `marshalN…` (`required`) or `marshalO…` function, for one value or for a list. The functions of the fields
      with a required marshaller also report a nil that the resolver returned. */
  datatype Marshaller = One(required: bool, element: Element) | Many(required: bool, element: Element)

  /** The marshaller that the field's function ends with. */
  function MarshallerOf(o: ObjectType, n: FieldName): Option<Marshaller> {
    match o
    case QueryType => (
      match n
      case Tasks => Some(Many(true, ObjectElement(TaskType)))
      case TaskById => Some(One(false, ObjectElement(TaskType)))
      case TypeByName => Some(One(false, ObjectElement(TypeType)))
      case SchemaRoot => Some(One(false, ObjectElement(SchemaType)))
      case _ => None)
    case MutationType => (
      match n
      case CreateTask => Some(One(true, ObjectElement(TaskType)))
      case UpdateTask => Some(One(true, ObjectElement(TaskType)))
      case DeleteTask => Some(One(true, LeafElement))
      case _ => None)
    case TaskType => (
      match n
      case Id => Some(One(true, LeafElement))
      case Title => Some(One(true, LeafElement))
      case Description => Some(One(false, LeafElement))
      case Done => Some(One(true, LeafElement))
      case _ => None)
    case SchemaType => (
      match n
      case Description => Some(One(false, LeafElement))
      case Types => Some(Many(true, ObjectElement(TypeType)))
      case QueryTypeOf => Some(One(true, ObjectElement(TypeType)))
      case MutationTypeOf => Some(One(false, ObjectElement(TypeType)))
      case SubscriptionTypeOf => Some(One(false, ObjectElement(TypeType)))
      case Directives => Some(Many(true, ObjectElement(DirectiveType)))
      case _ => None)
    case TypeType => (
      match n
      case Kind => Some(One(true, LeafElement))
      case Name => Some(One(false, LeafElement))
      case Description => Some(One(false, LeafElement))
      case Fields => Some(Many(false, ObjectElement(FieldType)))
      case Interfaces => Some(Many(false, ObjectElement(TypeType)))
      case PossibleTypes => Some(Many(false, ObjectElement(TypeType)))
      case EnumValues => Some(Many(false, ObjectElement(EnumValueType)))
      case InputFields => Some(Many(false, ObjectElement(InputValueType)))
      case OfType => Some(One(false, ObjectElement(TypeType)))
      case SpecifiedByURL => Some(One(false, LeafElement))
      case _ => None)
    case FieldType => (
      match n
      case Name => Some(One(true, LeafElement))
      case Description => Some(One(false, LeafElement))
      case Args => Some(Many(true, ObjectElement(InputValueType)))
      case FieldTypeOf => Some(One(true, ObjectElement(TypeType)))
      case IsDeprecated => Some(One(true, LeafElement))
      case DeprecationReason => Some(One(false, LeafElement))
      case _ => None)
    case InputValueType => (
      match n
      case Name => Some(One(true, LeafElement))
      case Description => Some(One(false, LeafElement))
      case FieldTypeOf => Some(One(true, ObjectElement(TypeType)))
      case DefaultValue => Some(One(false, LeafElement))
      case _ => None)
    case EnumValueType => (
      match n
      case Name => Some(One(true, LeafElement))
      case Description => Some(One(false, LeafElement))
      case IsDeprecated => Some(One(true, LeafElement))
      case DeprecationReason => Some(One(false, LeafElement))
      case _ => None)
    case DirectiveType => (
      match n
      case Name => Some(One(true, LeafElement))
      case Description => Some(One(false, LeafElement))
      case Locations => Some(Many(true, LeafElement))
      case Args => Some(Many(true, ObjectElement(InputValueType)))
      case IsRepeatable => Some(One(true, LeafElement))
      case _ => None)
  }

  /** The fields whose null the object's function counts in `Invalids`. */
  predicate Counted(o: ObjectType, n: FieldName) {
    match o
    case QueryType => n == Tasks
    case MutationType => n in {CreateTask, UpdateTask, DeleteTask}
    case TaskType => n in {Id, Title, Done}
    case SchemaType => n in {Types, QueryTypeOf, Directives}
    case TypeType => n == Kind
    case FieldType => n in {Name, Args, FieldTypeOf, IsDeprecated}
    case InputValueType => n in {Name, FieldTypeOf}
    case EnumValueType => n in {Name, IsDeprecated}
    case DirectiveType => n in {Name, Locations, Args, IsRepeatable}
  }

  function ElementType(e: Element): TypeRef {
    match e
    case LeafElement => Leaf
    case ObjectElement(o) => Obj(o)
  }

  /** The type a marshaller is generated for. */
  function MarshalledType(m: Marshaller): TypeRef {
    var t := if m.Many? then ListOf(NonNull(ElementType(m.element))) else ElementType(m.element);
    if m.required then NonNull(t) else t
  }

  /** The generated code follows the declared types: every field is marshalled at its declared type, and a null is
      counted exactly at the fields declared non-null. */
  lemma GeneratedFromSchema(o: ObjectType, n: FieldName)
    ensures FollowsSchema(o, n)
  {
    match o
    case QueryType => RootsFollow(o, n);
    case MutationType => RootsFollow(o, n);
    case TaskType => RootsFollow(o, n);
    case SchemaType => SchemaFollows(n);
    case TypeType => TypeFollows(n);
    case FieldType => MembersFollow(o, n);
    case InputValueType => MembersFollow(o, n);
    case EnumValueType => MembersFollow(o, n);
    case DirectiveType => DirectiveFollows(n);
  }

  ghost predicate FollowsSchema(o: ObjectType, n: FieldName) {
    && (DeclaredType(o, n).None? <==> MarshallerOf(o, n).None?)
    && (DeclaredType(o, n).Some? ==> MarshalledType(MarshallerOf(o, n).value) == DeclaredType(o, n).value)
    && (Counted(o, n) <==> DeclaredType(o, n).Some? && DeclaredType(o, n).value.NonNull?)
  }

  lemma {:induction false} RootsFollow(o: ObjectType, n: FieldName)
    requires o.QueryType? || o.MutationType? || o.TaskType?
    ensures FollowsSchema(o, n)
  {
  }

  lemma {:induction false} SchemaFollows(n: FieldName)
    ensures FollowsSchema(SchemaType, n)
  {
  }

  lemma {:induction false} TypeFollows(n: FieldName)
    ensures FollowsSchema(TypeType, n)
  {
  }

  lemma {:induction false} MembersFollow(o: ObjectType, n: FieldName)
    requires o.FieldType? || o.InputValueType? || o.EnumValueType?
    ensures FollowsSchema(o, n)
  {
  }

  lemma {:induction false} DirectiveFollows(n: FieldName)
    ensures FollowsSchema(DirectiveType, n)
  {
  }

  // ---- Requests and responses ---------------------------------------------------------------------------

  datatype Argument =
    | NoArgument
    | ById(id: string)
    | NewTask(title: string, description: Store.Option<string>)
    | Changes(key: string, newTitle: Store.Option<string>, newDescription: Store.Option<string>, newDone: Store.Option<bool>)

  /** A collected field: response key, name, coerced arguments and collected sub-selection. */
  datatype Field = Field(key: string, name: FieldName, argument: Argument, sub: seq<Field>)

  /** What a resolver's value refers to: the root, a task snapshot, or an introspection object. */
  datatype Object = Root | TaskObject(task: Store.Task) | Meta(number: nat)

  datatype Scalar = Text(text: string) | Flag(flag: bool)

  datatype Json = JNull | JScalar(value: Scalar) | JList(items: seq<Json>) | JObject(members: seq<(string, Json)>)

  datatype Segment = Key(key: string) | Index(index: nat)

  type Path = seq<Segment>

  predicate DistinctKeys(fs: seq<Field>) {
    forall i, j :: 0 <= i < j < |fs| ==> fs[i].key != fs[j].key
  }

  predicate ArgumentFits(n: FieldName, a: Argument) {
    match n
    case TaskById => a.ById?
    case CreateTask => a.NewTask?
    case UpdateTask => a.Changes?
    case DeleteTask => a.ById?
    case _ => true
  }

  /** The selections that pass validation: declared fields with their arguments, and distinct response keys at every
      level. */
  ghost predicate ValidSelection(o: ObjectType, fs: seq<Field>)
    decreases fs
  {
    && DistinctKeys(fs)
    && forall i :: 0 <= i < |fs| ==> ValidField(o, fs[i])
  }

  ghost predicate ValidField(o: ObjectType, f: Field)
    decreases f
  {
    f.name == Typename ||
    match MarshallerOf(o, f.name)
    case None => false
    case Some(m) => ArgumentFits(f.name, f.argument) && (m.element.ObjectElement? ==> ValidSelection(m.element.o, f.sub))
  }
}
