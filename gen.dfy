/**
 * The schema-to-Go translation of the binding generator: the type-reference
 * resolver, the collection helpers handed to the templates, what the enum and
 * input templates select and in which order, the text helpers, and the
 * gofmt fallback of the file-writing loop.
 */
module Gen {
  import opened Results
  import opened GoStrings
  import opened Collections

  // ---------------------------------------------------------------------------
  // Schema data

  /** The `kind` of a GraphQL introspection type. */
  datatype Kind = SCALAR | OBJECT | INTERFACE | UNION | ENUM | INPUT_OBJECT | LIST | NON_NULL

  /** The kinds a named (unwrapped) type reference can have. */
  type LeafKind = k: Kind | k != LIST && k != NON_NULL witness SCALAR

  /** A possibly wrapped reference to a named type (`kind`, `name`, `ofType`). */
  datatype TypeRef =
    | NonNull(ofType: TypeRef)
    | List(ofType: TypeRef)
    | Named(kind: LeafKind, name: string)

  /** The `kind` entry of a type reference. */
  function KindOf(t: TypeRef): Kind {
    match t
    case NonNull(_) => NON_NULL
    case List(_) => LIST
    case Named(k, _) => k
  }

  /** An entry of `inputFields`. */
  datatype InputValue = InputValue(name: string, typ: TypeRef)

  /** An entry of `data.__schema.types`; `enumValues` holds the value names. */
  datatype TypeDef = TypeDef(kind: Kind, name: string, inputFields: seq<InputValue>, enumValues: seq<string>)

  /** A panic raised by a helper while a template runs. */
  datatype Panic =
    | NullableWithoutStar(typeString: string)  // typeString found no '*' to strip
    | SliceOutOfRange                          // endSentence took s[0:1] of an empty string

  // ---------------------------------------------------------------------------
  // typeString

  /** The Go type of a GraphQL type reference. */
  function TypeString(t: TypeRef): Result<string, Panic> {
    match t
    case NonNull(inner) =>
      (match TypeString(inner)
       case Err(p) => Err(p)
       case Ok(s) => if HasPrefix(s, "*") then Ok(s[1..]) else Err(NullableWithoutStar(s)))
    case List(inner) =>
      (match TypeString(inner)
       case Err(p) => Err(p)
       case Ok(s) => Ok("*[]" + s))
    case Named(_, name) => Ok("*" + name)
  }

  /** A GraphQL Name (section 2.1.9 of the GraphQL specification, October 2021). */
  predicate IsName(n: string) {
    |n| > 0 && NameStart(n[0]) && forall i :: 1 <= i < |n| ==> NameStart(n[i]) || '0' <= n[i] <= '9'
  }

  predicate NameStart(c: char) {
    'A' <= c <= 'Z' || 'a' <= c <= 'z' || c == '_'
  }

  /** Every named leaf of `t` carries a GraphQL Name. */
  predicate WellNamed(t: TypeRef) {
    match t
    case NonNull(inner) => WellNamed(inner)
    case List(inner) => WellNamed(inner)
    case Named(_, n) => IsName(n)
  }

  /** No NON_NULL wrapper directly wraps another NON_NULL wrapper. */
  predicate NoDoubleNonNull(t: TypeRef) {
    match t
    case NonNull(inner) => !inner.NonNull? && NoDoubleNonNull(inner)
    case List(inner) => NoDoubleNonNull(inner)
    case Named(_, _) => true
  }

  /** A named leaf is a pointer to its name; a list is a pointer to a slice of its element type. */
  lemma TypeStringNamedAndList(t: TypeRef)
    ensures t.Named? ==> TypeString(t) == Ok("*" + t.name)
    ensures t.List? && TypeString(t.ofType).Ok? ==> TypeString(t) == Ok("*[]" + TypeString(t.ofType).value)
    ensures t.List? && TypeString(t.ofType).Err? ==> TypeString(t) == TypeString(t.ofType)
  {
  }

  /** NON_NULL removes exactly the leading '*' of its element's type, and panics when there is none. */
  lemma TypeStringNonNull(inner: TypeRef)
    requires TypeString(inner).Ok?
    ensures var s := TypeString(inner).value;
      if |s| > 0 && s[0] == '*' then TypeString(NonNull(inner)) == Ok(s[1..]) && s == "*" + s[1..]
      else TypeString(NonNull(inner)) == Err(NullableWithoutStar(s))
  {
  }

  /**
   * Over GraphQL names, typeString panics exactly on a NON_NULL directly inside a
   * NON_NULL, and otherwise yields a pointer type exactly when the reference is
   * not NON_NULL.
   */
  lemma {:induction false} TypeStringPartiality(t: TypeRef)
    requires WellNamed(t)
    ensures TypeString(t).Ok? <==> NoDoubleNonNull(t)
    ensures TypeString(t).Ok? ==> (HasPrefix(TypeString(t).value, "*") <==> KindOf(t) != NON_NULL)
  {
    match t {
    case Named(_, n) =>
    case List(inner) =>
      TypeStringPartiality(inner);
    case NonNull(inner) =>
      TypeStringPartiality(inner);
      match inner {
        case Named(_, n) =>
          assert TypeString(t) == Ok(n);
        case List(e) =>
          if TypeString(e).Ok? {
            var x := TypeString(e).value;
            assert ("*[]" + x)[1..] == "[]" + x;
            assert TypeString(t) == Ok("[]" + x);
            assert ("[]" + x)[..1] == "[";
          }
        case NonNull(_) =>
      }
    }
  }

  /** The wrapper structure and the leaf names of two references agree. */
  predicate SameShape(a: TypeRef, b: TypeRef) {
    match a
    case NonNull(x) => b.NonNull? && SameShape(x, b.ofType)
    case List(x) => b.List? && SameShape(x, b.ofType)
    case Named(_, n) => b.Named? && b.name == n
  }

  /** The first characters of a resolved type string tell its outer wrappers apart. */
  lemma TypeStringHead(t: TypeRef)
    requires WellNamed(t) && TypeString(t).Ok?
    ensures var s := TypeString(t).value;
      match t
      case Named(_, n) => s == "*" + n && |s| >= 2 && NameStart(s[1])
      case List(e) => s == "*[]" + TypeString(e).value
      case NonNull(inner) =>
        (inner.Named? && s == inner.name && |s| > 0 && NameStart(s[0]))
        || (inner.List? && TypeString(inner.ofType).Ok? && s == "[]" + TypeString(inner.ofType).value)
  {
    TypeStringPartiality(t);
    if t.NonNull? && t.ofType.List? {
      var e := t.ofType.ofType;
      assert ("*[]" + TypeString(e).value)[1..] == "[]" + TypeString(e).value;
    }
  }

  /** Distinct reference shapes over GraphQL names never resolve to the same Go type. */
  lemma {:induction false} TypeStringInjective(a: TypeRef, b: TypeRef)
    requires WellNamed(a) && WellNamed(b)
    requires TypeString(a).Ok? && TypeString(a) == TypeString(b)
    ensures SameShape(a, b)
  {
    var s := TypeString(a).value;
    TypeStringHead(a);
    TypeStringHead(b);
    match a {
      case Named(_, n) =>
        match b {
          case Named(_, m) => assert n == s[1..] == m;
          case List(_) =>
          case NonNull(_) =>
        }
      case List(x) =>
        match b {
          case Named(_, _) =>
          case List(y) =>
            assert TypeString(x).value == s[3..] == TypeString(y).value;
            TypeStringInjective(x, y);
          case NonNull(_) =>
        }
      case NonNull(x) =>
        match b {
          case Named(_, _) =>
          case List(_) =>
          case NonNull(y) =>
            if x.Named? && y.Named? {
              assert x.name == s == y.name;
            } else if x.List? && y.List? {
              assert TypeString(x.ofType).value == s[2..] == TypeString(y.ofType).value;
              TypeStringInjective(x.ofType, y.ofType);
            }
        }
    }
  }

  // ---------------------------------------------------------------------------
  // Collection helpers: internal, sortByName, inputObjects

  /** `internal`: the name is reserved for introspection. */
  predicate Internal(s: string) {
    HasPrefix(s, "__")
  }

  function NameOf(t: TypeDef): string { t.name }

  predicate IsInputObject(t: TypeDef) { t.kind == INPUT_OBJECT }

  /** `sortByName`: sorts the schema's type list in place by name (not stably). */
  method SortByName(types: array<TypeDef>)
    modifies types
    ensures Sorted(types[..], NameOf)
    ensures multiset(types[..]) == old(multiset(types[..]))
  {
    SortBy(types, NameOf);
  }

  /** The names of the INPUT_OBJECT types, in schema order. */
  function InputObjectNames(types: seq<TypeDef>): (names: seq<string>)
    ensures |names| == |Filter(types, IsInputObject)|
    ensures forall i :: 0 <= i < |names| ==> names[i] == Filter(types, IsInputObject)[i].name
  {
    var kept := Filter(types, IsInputObject);
    seq(|kept|, i requires 0 <= i < |kept| => kept[i].name)
  }

  lemma InputObjectNamesAppend(a: seq<TypeDef>, t: TypeDef)
    ensures InputObjectNames(a + [t]) == InputObjectNames(a) + (if IsInputObject(t) then [t.name] else [])
  {
    FilterAppend(a, [t], IsInputObject);
    assert Filter([t], IsInputObject) == if IsInputObject(t) then [t] else [];
  }

  /** A name is listed exactly when some INPUT_OBJECT type carries it. */
  lemma InputObjectNamesExact(types: seq<TypeDef>, n: string)
    ensures n in InputObjectNames(types) <==> exists i :: 0 <= i < |types| && types[i].kind == INPUT_OBJECT && types[i].name == n
  {
    var kept := Filter(types, IsInputObject);
    if n in InputObjectNames(types) {
      var k :| 0 <= k < |kept| && kept[k].name == n;
      assert kept[k] in types;
    }
    if exists i :: 0 <= i < |types| && types[i].kind == INPUT_OBJECT && types[i].name == n {
      var i :| 0 <= i < |types| && types[i].kind == INPUT_OBJECT && types[i].name == n;
      assert types[i] in kept;
      var k :| 0 <= k < |kept| && kept[k] == types[i];
      assert InputObjectNames(types)[k] == n;
    }
  }

  /** `inputObjects`: the INPUT_OBJECT names, one per such type, sorted. */
  method InputObjects(types: seq<TypeDef>) returns (names: seq<string>)
    ensures Sorted(names, Id)
    ensures multiset(names) == multiset(InputObjectNames(types))
  {
    var collected: seq<string> := [];
    for i := 0 to |types|
      invariant collected == InputObjectNames(types[..i])
    {
      InputObjectNamesAppend(types[..i], types[i]);
      assert types[..i + 1] == types[..i] + [types[i]];
      if types[i].kind != INPUT_OBJECT {
        continue;
      }
      collected := collected + [types[i].name];
    }
    assert types[..|types|] == types;
    var a := new string[|collected|](k requires 0 <= k < |collected| => collected[k]);
    assert a[..] == collected;
    SortBy(a, Id);
    names := a[..];
  }

  // ---------------------------------------------------------------------------
  // The enum template

  /** An enum type the enum template emits. */
  predicate EmitsEnum(t: TypeDef) {
    t.kind == ENUM && !Internal(t.name)
  }

  /**
   * `enumIdentifier`: the enum's name followed by the mixed-caps form of the
   * value; `mixedCaps` stands for `ident.ParseScreamingSnakeCase(v).ToMixedCaps()`.
   */
  function EnumIdentifier(enum: string, value: string, mixedCaps: string -> string): (r: string)
    ensures HasPrefix(r, enum)
  {
    enum + mixedCaps(value)
  }

  /** Two enums with different names never produce the same identifier for one value. */
  lemma EnumIdentifierSeparatesEnums(e1: string, e2: string, value: string, mixedCaps: string -> string)
    requires e1 != e2
    ensures EnumIdentifier(e1, value, mixedCaps) != EnumIdentifier(e2, value, mixedCaps)
  {
  }

  /** Within one enum, identifiers differ whenever the cased values differ. */
  lemma EnumIdentifierSeparatesValues(e: string, v1: string, v2: string, mixedCaps: string -> string)
    requires mixedCaps(v1) != mixedCaps(v2)
    ensures EnumIdentifier(e, v1, mixedCaps) != EnumIdentifier(e, v2, mixedCaps)
  {
  }

  /** One constant `Identifier Type = "VALUE"` of an enum declaration. */
  datatype EnumConst = EnumConst(identifier: string, value: string)

  /** `type Name string` with its constants. */
  datatype EnumDecl = EnumDecl(typeName: string, constants: seq<EnumConst>)

  /** The "enum" sub-template for one type. */
  function EnumBlock(t: TypeDef, mixedCaps: string -> string): (d: EnumDecl)
    ensures d.typeName == t.name && |d.constants| == |t.enumValues|
    ensures forall i :: 0 <= i < |t.enumValues| ==>
      d.constants[i].value == t.enumValues[i] && HasPrefix(d.constants[i].identifier, t.name)
    ensures forall i :: 0 <= i < |t.enumValues| ==>
      d.constants[i].identifier == EnumIdentifier(t.name, t.enumValues[i], mixedCaps)
  {
    EnumDecl(t.name, seq(|t.enumValues|, i requires 0 <= i < |t.enumValues| =>
      EnumConst(EnumIdentifier(t.name, t.enumValues[i], mixedCaps), t.enumValues[i])))
  }

  /** Two constants of one block share an identifier only if their values case alike. */
  lemma EnumBlockDistinctIdentifiers(t: TypeDef, mixedCaps: string -> string, i: nat, j: nat)
    requires i < |t.enumValues| && j < |t.enumValues|
    requires mixedCaps(t.enumValues[i]) != mixedCaps(t.enumValues[j])
    ensures EnumBlock(t, mixedCaps).constants[i].identifier != EnumBlock(t, mixedCaps).constants[j].identifier
  {
    EnumIdentifierSeparatesValues(t.name, t.enumValues[i], t.enumValues[j], mixedCaps);
  }

  function DeclName(d: EnumDecl): string { d.typeName }

  /** The declarations of the enum template over the (already sorted) type list. */
  function EnumTemplate(types: seq<TypeDef>, mixedCaps: string -> string): seq<EnumDecl> {
    var kept := Filter(types, EmitsEnum);
    seq(|kept|, i requires 0 <= i < |kept| => EnumBlock(kept[i], mixedCaps))
  }

  /**
   * The enum template declares exactly the ENUM types whose names are not
   * internal, one block per type, and in name order when the list is sorted.
   */
  lemma EnumTemplateExact(types: seq<TypeDef>, mixedCaps: string -> string)
    ensures forall d :: d in EnumTemplate(types, mixedCaps) ==>
      exists i :: 0 <= i < |types| && EmitsEnum(types[i]) && d == EnumBlock(types[i], mixedCaps)
    ensures forall i :: 0 <= i < |types| && EmitsEnum(types[i]) ==>
      EnumBlock(types[i], mixedCaps) in EnumTemplate(types, mixedCaps)
    ensures forall d :: d in EnumTemplate(types, mixedCaps) ==> !Internal(d.typeName)
    ensures Sorted(types, NameOf) ==> Sorted(EnumTemplate(types, mixedCaps), DeclName)
  {
    var kept := Filter(types, EmitsEnum);
    var r := EnumTemplate(types, mixedCaps);
    forall d | d in r
      ensures exists i :: 0 <= i < |types| && EmitsEnum(types[i]) && d == EnumBlock(types[i], mixedCaps)
    {
      var k :| 0 <= k < |r| && r[k] == d;
      assert kept[k] in types;
      var i :| 0 <= i < |types| && types[i] == kept[k];
    }
    forall i | 0 <= i < |types| && EmitsEnum(types[i])
      ensures EnumBlock(types[i], mixedCaps) in r
    {
      var k :| 0 <= k < |kept| && kept[k] == types[i];
      assert r[k] == EnumBlock(types[i], mixedCaps);
    }
    if Sorted(types, NameOf) {
      FilterSorted(types, EmitsEnum, NameOf);
      forall i, j | 0 <= i < j < |r|
        ensures !Less(DeclName(r[j]), DeclName(r[i]))
      {
        assert DeclName(r[j]) == NameOf(kept[j]) && DeclName(r[i]) == NameOf(kept[i]);
      }
    }
  }

  /** With unique type names, no enum is declared twice. */
  lemma EnumTemplateOncePerType(types: seq<TypeDef>, mixedCaps: string -> string)
    requires UniqueKeys(types, NameOf)
    ensures forall i, j :: 0 <= i < j < |EnumTemplate(types, mixedCaps)| ==>
      EnumTemplate(types, mixedCaps)[i].typeName != EnumTemplate(types, mixedCaps)[j].typeName
  {
    var kept := Filter(types, EmitsEnum);
    var r := EnumTemplate(types, mixedCaps);
    FilterUniqueKeys(types, EmitsEnum, NameOf);
    assert forall k :: 0 <= k < |r| ==> r[k].typeName == NameOf(kept[k]);
  }

  // ---------------------------------------------------------------------------
  // The input template

  predicate IsRequired(f: InputValue) { KindOf(f.typ) == NON_NULL }
  predicate IsOptional(f: InputValue) { KindOf(f.typ) != NON_NULL }

  /** The order in which the "inputObject" sub-template emits fields. */
  function FieldOrder(fields: seq<InputValue>): seq<InputValue> {
    Filter(fields, IsRequired) + Filter(fields, IsOptional)
  }

  /**
   * Every field is emitted exactly once, all required (top-level NON_NULL)
   * fields come first, and each group keeps the schema's field order.
   */
  lemma FieldOrderProperties(fields: seq<InputValue>)
    ensures multiset(FieldOrder(fields)) == multiset(fields)
    ensures forall i, j :: 0 <= i < j < |FieldOrder(fields)| && IsRequired(FieldOrder(fields)[j]) ==>
      IsRequired(FieldOrder(fields)[i])
    ensures Filter(FieldOrder(fields), IsRequired) == Filter(fields, IsRequired)
    ensures Filter(FieldOrder(fields), IsOptional) == Filter(fields, IsOptional)
  {
    var req, opt := Filter(fields, IsRequired), Filter(fields, IsOptional);
    FilterPartition(fields, IsRequired, IsOptional);
    FilterAppend(req, opt, IsRequired);
    FilterAppend(req, opt, IsOptional);
    FilterIdempotent(fields, IsRequired);
    FilterIdempotent(fields, IsOptional);
    FilterDisjoint(fields, IsRequired, IsOptional);
    FilterDisjoint(fields, IsOptional, IsRequired);
    var r := FieldOrder(fields);
    forall i, j | 0 <= i < j < |r| && IsRequired(r[j])
      ensures IsRequired(r[i])
    {
      assert r[i] == req[i];
    }
  }

  /** One struct field `Identifier Type `json:"tag"``. */
  datatype FieldDecl = FieldDecl(identifier: string, goType: string, jsonTag: string, required: bool)

  /** One emitted field; `identifier` stands for `ident.ParseLowerCamelCase(name).ToMixedCaps()`. */
  function DeclareField(f: InputValue, identifier: string -> string): Result<FieldDecl, Panic> {
    match TypeString(f.typ)
    case Err(p) => Err(p)
    case Ok(goType) =>
      Ok(FieldDecl(identifier(f.name), goType,
                   if IsRequired(f) then f.name else f.name + ",omitempty", IsRequired(f)))
  }

  /**
   * Over GraphQL names, a field is emitted without a pointer exactly when it is
   * required, and only optional fields carry `omitempty`.
   */
  lemma DeclareFieldRequiredness(f: InputValue, identifier: string -> string)
    requires WellNamed(f.typ) && DeclareField(f, identifier).Ok?
    ensures var d := DeclareField(f, identifier).value;
      && d.goType == TypeString(f.typ).value
      && (d.required <==> !HasPrefix(d.goType, "*"))
      && (d.required <==> KindOf(f.typ) == NON_NULL)
      && d.jsonTag == f.name + (if d.required then "" else ",omitempty")
  {
    TypeStringPartiality(f.typ);
    assert f.name + "" == f.name;
  }

  /** Runs `f` over `xs` in order; the first panic aborts the run. */
  function MapOrPanic<A, B>(xs: seq<A>, f: A -> Result<B, Panic>): (r: Result<seq<B>, Panic>)
    ensures r.Ok? <==> forall i :: 0 <= i < |xs| ==> f(xs[i]).Ok?
    ensures r.Ok? ==> |r.value| == |xs| && forall i :: 0 <= i < |xs| ==> f(xs[i]) == Ok(r.value[i])
    ensures r.Err? ==> exists i :: 0 <= i < |xs| && f(xs[i]) == Err(r.error) &&
                                   (forall k :: 0 <= k < i ==> f(xs[k]).Ok?)
  {
    if |xs| == 0 then Ok([])
    else
      match f(xs[0])
      case Err(p) => Err(p)
      case Ok(y) =>
        match MapOrPanic(xs[1..], f)
        case Err(p) => Err(p)
        case Ok(ys) => Ok([y] + ys)
  }

  /** `type Name struct { ... }` */
  datatype InputDecl = InputDecl(typeName: string, fields: seq<FieldDecl>)

  /** The "inputObject" sub-template for one type. */
  function InputBlock(t: TypeDef, identifier: string -> string): Result<InputDecl, Panic> {
    match MapOrPanic(FieldOrder(t.inputFields), f => DeclareField(f, identifier))
    case Err(p) => Err(p)
    case Ok(fields) => Ok(InputDecl(t.name, fields))
  }

  /** The declarations of the input template over the (already sorted) type list. */
  function InputTemplate(types: seq<TypeDef>, identifier: string -> string): Result<seq<InputDecl>, Panic> {
    MapOrPanic(Filter(types, IsInputObject), t => InputBlock(t, identifier))
  }

  /**
   * The input template declares every INPUT_OBJECT type, internal names
   * included, one block per type in list order.
   */
  lemma InputTemplateExact(types: seq<TypeDef>, identifier: string -> string)
    requires InputTemplate(types, identifier).Ok?
    ensures var decls := InputTemplate(types, identifier).value;
      var kept := Filter(types, IsInputObject);
      && |decls| == |kept|
      && (forall k :: 0 <= k < |kept| ==> InputBlock(kept[k], identifier) == Ok(decls[k]))
      && (forall i :: 0 <= i < |types| && IsInputObject(types[i]) ==>
            exists k :: 0 <= k < |decls| && decls[k].typeName == types[i].name)
  {
    var kept := Filter(types, IsInputObject);
    var decls := InputTemplate(types, identifier).value;
    assert forall k :: 0 <= k < |kept| ==> InputBlock(kept[k], identifier) == Ok(decls[k]);
    forall i | 0 <= i < |types| && IsInputObject(types[i])
      ensures exists k :: 0 <= k < |decls| && decls[k].typeName == types[i].name
    {
      var k :| 0 <= k < |kept| && kept[k] == types[i];
      assert InputBlock(kept[k], identifier) == Ok(decls[k]);
    }
  }

  /** An input block declares its type's fields in FieldOrder, one declaration per field. */
  lemma InputBlockFields(t: TypeDef, identifier: string -> string)
    requires InputBlock(t, identifier).Ok?
    ensures var d := InputBlock(t, identifier).value;
      var order := FieldOrder(t.inputFields);
      && d.typeName == t.name
      && |d.fields| == |order|
      && (forall i :: 0 <= i < |order| ==> DeclareField(order[i], identifier) == Ok(d.fields[i]))
  {
  }

  /**
   * Over sorted type lists with unique names, both templates emit the same
   * declarations whatever order the schema listed its types in.
   */
  lemma TemplatesDeterministic(a: seq<TypeDef>, b: seq<TypeDef>, mixedCaps: string -> string, identifier: string -> string)
    requires Sorted(a, NameOf) && Sorted(b, NameOf)
    requires multiset(a) == multiset(b)
    requires UniqueKeys(a, NameOf)
    ensures EnumTemplate(a, mixedCaps) == EnumTemplate(b, mixedCaps)
    ensures InputTemplate(a, identifier) == InputTemplate(b, identifier)
  {
    assert KeyDetermines(a, NameOf);
    SortedPermutationsEqual(a, b, NameOf);
  }

  /** The file the input template renders. */
  datatype InputFile = InputFile(objectNames: seq<string>, decls: seq<InputDecl>)

  /** The enum template: sorts the schema's type list in place, then emits its enum blocks. */
  method ExecuteEnumTemplate(types: array<TypeDef>, mixedCaps: string -> string) returns (decls: seq<EnumDecl>)
    modifies types
    ensures Sorted(types[..], NameOf) && multiset(types[..]) == old(multiset(types[..]))
    ensures decls == EnumTemplate(types[..], mixedCaps)
    ensures Sorted(decls, DeclName)
  {
    SortByName(types);
    decls := EnumTemplate(types[..], mixedCaps);
    EnumTemplateExact(types[..], mixedCaps);
  }

  /**
   * The input template: the sorted INPUT_OBJECT names for the doc comment,
   * then the input blocks over the type list sorted in place.
   */
  method ExecuteInputTemplate(types: array<TypeDef>, identifier: string -> string) returns (r: Result<InputFile, Panic>)
    modifies types
    ensures Sorted(types[..], NameOf) && multiset(types[..]) == old(multiset(types[..]))
    ensures r.Ok? <==> InputTemplate(types[..], identifier).Ok?
    ensures r.Err? ==> r == Err(InputTemplate(types[..], identifier).error)
    ensures r.Ok? ==> r.value.decls == InputTemplate(types[..], identifier).value
    ensures r.Ok? ==> Sorted(r.value.objectNames, Id)
    ensures r.Ok? ==> multiset(r.value.objectNames) == multiset(InputObjectNames(old(types[..])))
  {
    var names := InputObjects(types[..]);
    SortByName(types);
    match InputTemplate(types[..], identifier)
    case Err(p) => r := Err(p);
    case Ok(decls) => r := Ok(InputFile(names, decls));
  }

  // ---------------------------------------------------------------------------
  // Text helpers: clean, fullSentence, endSentence

  /** `clean`: collapses every run of whitespace to one space and trims both ends. */
  function Clean(s: string): (r: string)
    ensures SingleSpaced(r)
    ensures NonSpace(r) == NonSpace(s)
    ensures Fields(r) == Fields(s)
  {
    FieldsOfJoin(Fields(s));
    JoinSingleSpaced(Fields(s));
    NonSpaceOfJoin(Fields(s));
    FieldsKeepNonSpace(s);
    Join(Fields(s), " ")
  }

  lemma CleanIdempotent(s: string)
    ensures Clean(Clean(s)) == Clean(s)
  {
  }

  /** `fullSentence`: appends a full stop unless one is already there. */
  function FullSentence(s: string): (r: string)
    ensures HasSuffix(r, ".")
    ensures HasPrefix(r, s) && |r| <= |s| + 1
    ensures HasSuffix(s, ".") ==> r == s
  {
    if HasSuffix(s, ".") then s else s + "."
  }

  lemma FullSentenceIdempotent(s: string)
    ensures FullSentence(FullSentence(s)) == FullSentence(s)
  {
  }

  /** `strings.ToLower` on one character, for the ASCII letters. */
  function ToLowerASCII(c: char): char {
    if 'A' <= c <= 'Z' then (c as int + 32) as char else c
  }

  /** The verb phrase endSentence puts in front of the lower-cased description. */
  function SentenceLead(l: string): string {
    if HasPrefix(l, "autogenerated ") then "is an "
    else if HasPrefix(l, "specifies ") then ""
    else "represents "
  }

  /**
   * `endSentence`: lower-cases the first character, puts a verb in front unless
   * the text already starts with "specifies ", and ends it with a full stop.
   */
  function EndSentence(s: string): (r: Result<string, Panic>)
    ensures r.Err? <==> |s| == 0
    ensures r.Err? ==> r.error == SliceOutOfRange
    ensures r.Ok? ==> HasSuffix(r.value, ".")
    ensures r.Ok? ==> var l := [ToLowerASCII(s[0])] + s[1..];
      r.value == FullSentence(SentenceLead(l) + l)
  {
    if |s| == 0 then Err(SliceOutOfRange)
    else
      var l := [ToLowerASCII(s[0])] + s[1..];
      var t := if HasPrefix(l, "autogenerated ") then "is an " + l
               else if HasPrefix(l, "specifies ") then l
               else "represents " + l;
      assert "" + l == l;
      Ok(if !HasSuffix(t, ".") then t + "." else t)
  }

  // ---------------------------------------------------------------------------
  // generateSchema

  /** What `format.Source` did with a rendered file. */
  datatype Formatted = Formatted(source: string) | FormatError(message: string)

  /** The bytes written for one file: the gofmt output, or the raw text under a comment naming the error. */
  function FormatOutput(rendered: string, gofmt: Formatted): (out: string)
    ensures gofmt.Formatted? ==> out == gofmt.source
    ensures gofmt.FormatError? ==> HasPrefix(out, "// gofmt error: " + gofmt.message + "\n\n")
    ensures gofmt.FormatError? ==> HasSuffix(out, rendered)
    ensures gofmt.FormatError? ==> |out| == |"// gofmt error: " + gofmt.message + "\n\n"| + |rendered|
  {
    match gofmt
    case Formatted(source) => source
    case FormatError(message) =>
      var head := "// gofmt error: " + message + "\n\n";
      assert (head + rendered)[..|head|] == head;
      assert (head + rendered)[|head| + |rendered| - |rendered|..] == rendered;
      head + rendered
  }

  /** The rendered text can be read back from what is written after a gofmt error. */
  lemma FormatOutputKeepsRendered(rendered: string, message: string)
    ensures var head := "// gofmt error: " + message + "\n\n";
      var out := FormatOutput(rendered, FormatError(message));
      out == head + rendered && out[|head|..] == rendered
  {
    var head := "// gofmt error: " + message + "\n\n";
    var out := FormatOutput(rendered, FormatError(message));
    assert out[..|head|] == head;
    assert out[|head|..] == rendered;
    assert out == out[..|head|] + out[|head|..];
  }

  /**
   * The outcome of one template in the write loop, as decided by collaborators
   * outside the model: the template engine, gofmt and the file system.
   */
  datatype TemplateRun = TemplateRun(filename: string, rendered: Result<string, string>, gofmt: Formatted, writeError: Option<string>)

  datatype WrittenFile = WrittenFile(dir: string, filename: string, contents: string)

  /** A run renders and writes without error. */
  predicate Succeeds(run: TemplateRun) {
    run.rendered.Ok? && run.writeError.None?
  }

  /** The error a failing run reports. */
  function RunError(run: TemplateRun): string
    requires !Succeeds(run)
  {
    if run.rendered.Err? then run.rendered.error else run.writeError.value
  }

  /**
   * The write loop of generateSchema over the templates in map order: a
   * render or write error stops the run and is returned, a gofmt error only
   * changes what is written.
   */
  method GenerateSchema(loadError: Option<string>, basePath: string, runs: seq<TemplateRun>)
    returns (written: seq<WrittenFile>, err: Option<string>)
    ensures loadError.Some? ==> written == [] && err == loadError
    ensures loadError.None? ==> (err.None? <==> forall i :: 0 <= i < |runs| ==> Succeeds(runs[i]))
    ensures |written| <= |runs|
    ensures loadError.None? && err.None? ==> |written| == |runs|
    ensures forall i :: 0 <= i < |written| ==>
      (Succeeds(runs[i]) &&
       written[i] == WrittenFile(basePath, runs[i].filename, FormatOutput(runs[i].rendered.value, runs[i].gofmt)))
    ensures loadError.None? && err.Some? ==>
      |written| < |runs| && !Succeeds(runs[|written|]) && err == Some(RunError(runs[|written|]))
  {
    written, err := [], None;
    if loadError.Some? {
      err := loadError;
      return;
    }
    var i := 0;
    while i < |runs|
      invariant 0 <= i <= |runs| && |written| == i
      invariant forall k :: 0 <= k < i ==>
        (Succeeds(runs[k]) &&
         written[k] == WrittenFile(basePath, runs[k].filename, FormatOutput(runs[k].rendered.value, runs[k].gofmt)))
    {
      var run := runs[i];
      if run.rendered.Err? {
        err := Some(run.rendered.error);
        return;
      }
      var out := FormatOutput(run.rendered.value, run.gofmt);
      if run.writeError.Some? {
        err := run.writeError;
        return;
      }
      written := written + [WrittenFile(basePath, run.filename, out)];
      i := i + 1;
    }
  }
}
