/** The submission schema of the registration form and what the page does with its
    failures: every failing test is collected (validation does not stop at the first
    failure), the failures are folded into a map from field path to message, and the
    map decides which messages are shown next to the fields. */
module Validation {
  import opened Wrappers

  /** The image the dropzone hands to the page. */
  datatype File = File(fileName: string, bytes: seq<bv8>)

  /** The candidate record assembled on submit. A text entry is `None` when the form
      did not submit that control at all (a select left on its disabled placeholder).
      Coordinates are the page's position, (0, 0) until geolocation reports one. */
  datatype Point = Point(
    name: Option<string>,
    email: Option<string>,
    whatsapp: Option<string>,
    uf: Option<string>,
    city: Option<string>,
    latitude: int,
    longitude: int,
    items: seq<int>,
    image: Option<File>)

  /** One entry of the validation error's `inner` list. */
  datatype ValidationError = ValidationError(path: Option<string>, message: string)

  datatype Verdict = Valid | Invalid(inner: seq<ValidationError>)

  const NameTooShort := "Digite pelo menos 3 caracteres"
  const NameRequired := "O nome da entidade é obrigatório"
  const EmailMalformed := "Digite um email válido"
  const EmailRequired := "O email é obrigatório"
  const WhatsappRequired := "O WhatsApp é obrigatório"
  const UfWrongLength := "Digite apenas a UF do estado"
  const UfRequired := "O estado é obrigatório"
  const CityRequired := "A cidade é obrigatória"
  const LatitudeZero := "latitude must not be one of the following values: 0"
  const LongitudeZero := "longitude must not be one of the following values: 0"
  const ItemsTooFew := "Escolha pelo menos uma categoria"
  const ImageRequired := "Escolha uma imagem para o estabelecimento"
  /** The single line shown under the map for either coordinate error. */
  const LocationInvalid := "Escolha uma localização válida"

  /** The keys the schema declares. */
  datatype Field = Name | Email | Whatsapp | Uf | City | Latitude | Longitude | Items | Image

  /** The schema's keys in declaration order. */
  const SchemaFields: seq<Field> := [Name, Email, Whatsapp, Uf, City, Latitude, Longitude, Items, Image]

  /** The path a field's failures carry, which is also its key in the error map. */
  function Path(f: Field): string {
    match f
    case Name => "name"
    case Email => "email"
    case Whatsapp => "whatsapp"
    case Uf => "uf"
    case City => "city"
    case Latitude => "latitude"
    case Longitude => "longitude"
    case Items => "items"
    case Image => "image"
  }

  lemma PathInjective(f: Field, g: Field)
    requires Path(f) == Path(g)
    ensures f == g
  {
  }

  /** JavaScript's `length` of a string: its count of UTF-16 code units, where a
      character above U+FFFF takes a surrogate pair. */
  function Utf16Length(s: string): (n: nat)
    ensures |s| <= n <= 2 * |s|
    ensures n == |s| <==> forall i :: 0 <= i < |s| ==> s[i] as int <= 0xFFFF
  {
    if s == [] then 0
    else
      var rest := Utf16Length(s[1..]);
      assert forall i :: 1 <= i < |s| ==> s[i] == s[1..][i - 1];
      (if s[0] as int > 0xFFFF then 2 else 1) + rest
  }

  /** A character outside the Basic Multilingual Plane counts twice towards a length
      bound: two emoji make a long enough name, and one makes a two-unit state code. */
  lemma SurrogatePairLengths()
    ensures Utf16Length("\U{1F600}\U{1F600}") == 4 && Utf16Length("\U{1F600}") == 2
  {
    assert Utf16Length("\U{1F600}") == 2;
  }

  // Each field's rule, as one condition.

  predicate NameValid(v: Option<string>) {
    v.Some? && Utf16Length(v.value) >= 3
  }

  predicate EmailValid(v: Option<string>, isEmail: string -> bool) {
    v.Some? && v.value != "" && isEmail(v.value)
  }

  predicate Filled(v: Option<string>) {
    v.Some? && v.value != ""
  }

  predicate UfValid(v: Option<string>) {
    v.Some? && Utf16Length(v.value) == 2
  }

  /** A record the schema accepts: every one of the nine fields meets its rule. */
  predicate ValidRecord(p: Point, isEmail: string -> bool) {
    && NameValid(p.name)
    && EmailValid(p.email, isEmail)
    && Filled(p.whatsapp)
    && UfValid(p.uf)
    && Filled(p.city)
    && p.latitude != 0
    && p.longitude != 0
    && |p.items| >= 1
    && p.image.Some?
  }

  /** One field's rule. */
  predicate FieldValid(p: Point, isEmail: string -> bool, f: Field) {
    match f
    case Name => NameValid(p.name)
    case Email => EmailValid(p.email, isEmail)
    case Whatsapp => Filled(p.whatsapp)
    case Uf => UfValid(p.uf)
    case City => Filled(p.city)
    case Latitude => p.latitude != 0
    case Longitude => p.longitude != 0
    case Items => |p.items| >= 1
    case Image => p.image.Some?
  }

  /** The paths of the fields whose rule the record breaks. */
  function FailingFields(p: Point, isEmail: string -> bool): set<string> {
    set f | f in SchemaFields && !FieldValid(p, isEmail, f) :: Path(f)
  }

  lemma ValidRecordFields(p: Point, isEmail: string -> bool)
    ensures ValidRecord(p, isEmail) <==> forall f :: f in SchemaFields ==> FieldValid(p, isEmail, f)
  {
    if forall f :: f in SchemaFields ==> FieldValid(p, isEmail, f) {
      assert FieldValid(p, isEmail, Name) && FieldValid(p, isEmail, Email) && FieldValid(p, isEmail, Whatsapp);
      assert FieldValid(p, isEmail, Uf) && FieldValid(p, isEmail, City) && FieldValid(p, isEmail, Latitude);
      assert FieldValid(p, isEmail, Longitude) && FieldValid(p, isEmail, Items) && FieldValid(p, isEmail, Image);
    }
  }

  // The schema's tests, field by field, each field's tests in the order they were
  // declared. String tests other than `required` pass on an absent value; `email`
  // also passes on the empty string; `required` fails on an absent or empty string.
  // A coordinate is always a number and the item list always an array, so their
  // `required` tests pass; `notOneOf` runs before a field's other tests.

  function Fail(f: Field, message: string): seq<ValidationError> {
    [ValidationError(Some(Path(f)), message)]
  }

  function RequiredTest(f: Field, v: Option<string>, message: string): seq<ValidationError> {
    if v.None? || v.value == "" then Fail(f, message) else []
  }

  /** The failures of one field's tests. */
  function FieldTests(p: Point, isEmail: string -> bool, f: Field): seq<ValidationError> {
    match f
    case Name =>
      (if p.name.Some? && Utf16Length(p.name.value) < 3 then Fail(f, NameTooShort) else [])
      + RequiredTest(f, p.name, NameRequired)
    case Email =>
      (if p.email.Some? && p.email.value != "" && !isEmail(p.email.value) then Fail(f, EmailMalformed) else [])
      + RequiredTest(f, p.email, EmailRequired)
    case Whatsapp => RequiredTest(f, p.whatsapp, WhatsappRequired)
    case Uf =>
      (if p.uf.Some? && Utf16Length(p.uf.value) != 2 then Fail(f, UfWrongLength) else [])
      + RequiredTest(f, p.uf, UfRequired)
    case City => RequiredTest(f, p.city, CityRequired)
    case Latitude => if p.latitude == 0 then Fail(f, LatitudeZero) else []
    case Longitude => if p.longitude == 0 then Fail(f, LongitudeZero) else []
    case Items => if |p.items| < 1 then Fail(f, ItemsTooFew) else []
    case Image => if p.image.None? then Fail(f, ImageRequired) else []
  }

  /** A field's tests fail exactly when its rule is broken, and every failure names it. */
  lemma FieldTestsSpec(p: Point, isEmail: string -> bool, f: Field)
    ensures FieldTests(p, isEmail, f) == [] <==> FieldValid(p, isEmail, f)
    ensures forall e :: e in FieldTests(p, isEmail, f) ==> e.path == Some(Path(f))
  {
  }

  /** The failures of the listed fields, field after field. */
  function TestsOf(p: Point, isEmail: string -> bool, fields: seq<Field>): seq<ValidationError> {
    if fields == [] then [] else FieldTests(p, isEmail, fields[0]) + TestsOf(p, isEmail, fields[1..])
  }

  /** The failures of one validation run, in schema key order. */
  function SchemaErrors(p: Point, isEmail: string -> bool): seq<ValidationError> {
    TestsOf(p, isEmail, SchemaFields)
  }

  lemma {:induction false} TestsOfSpec(p: Point, isEmail: string -> bool, fields: seq<Field>)
    ensures TestsOf(p, isEmail, fields) == [] <==> forall f :: f in fields ==> FieldValid(p, isEmail, f)
    ensures forall e :: e in TestsOf(p, isEmail, fields) ==> exists f :: f in fields && e.path == Some(Path(f))
  {
    if fields != [] {
      FieldTestsSpec(p, isEmail, fields[0]);
      TestsOfSpec(p, isEmail, fields[1..]);
      assert forall f :: f in fields <==> f == fields[0] || f in fields[1..];
    }
  }

  /** `schema.validate(point, { abortEarly: false })`: it accepts exactly the records
      whose nine fields all meet their rules, and a rejection lists at least one failure,
      each failure naming one of the schema's keys. */
  function Validate(p: Point, isEmail: string -> bool): (v: Verdict)
    ensures v.Valid? <==> ValidRecord(p, isEmail)
    ensures v.Invalid? ==> |v.inner| > 0 && forall e :: e in v.inner ==> exists f :: f in SchemaFields && e.path == Some(Path(f))
  {
    TestsOfSpec(p, isEmail, SchemaFields);
    ValidRecordFields(p, isEmail);
    var errs := SchemaErrors(p, isEmail);
    if errs == [] then Valid else Invalid(errs)
  }

  /** The error map the catch block builds: failures are visited in order, a failure
      without a path is skipped, and a later message for a path overwrites an earlier one. */
  function ErrorMap(errs: seq<ValidationError>): map<string, string> {
    if errs == [] then map[]
    else
      var m, last := ErrorMap(errs[..|errs| - 1]), errs[|errs| - 1];
      if last.path.Some? then m[last.path.value := last.message] else m
  }

  /** The map holds exactly the paths named by the failures, and each path holds the
      message of the last failure that names it. */
  lemma {:induction false} ErrorMapLastWins(errs: seq<ValidationError>, path: string)
    ensures path in ErrorMap(errs) <==> exists i :: 0 <= i < |errs| && errs[i].path == Some(path)
    ensures path in ErrorMap(errs) ==>
      exists i :: 0 <= i < |errs| && errs[i].path == Some(path) && ErrorMap(errs)[path] == errs[i].message
        && forall j :: i < j < |errs| ==> errs[j].path != Some(path)
  {
    ErrorMapKeys(errs, path);
    if path in ErrorMap(errs) {
      ErrorMapLast(errs, path);
    }
  }

  lemma {:induction false} ErrorMapKeys(errs: seq<ValidationError>, path: string)
    ensures path in ErrorMap(errs) <==> exists i :: 0 <= i < |errs| && errs[i].path == Some(path)
  {
    if errs != [] {
      var n := |errs| - 1;
      var init := errs[..n];
      ErrorMapKeys(init, path);
      if exists i :: 0 <= i < |errs| && errs[i].path == Some(path) {
        var i :| 0 <= i < |errs| && errs[i].path == Some(path);
        if i < n {
          assert init[i] == errs[i];
        }
      }
      if exists i :: 0 <= i < |init| && init[i].path == Some(path) {
        var i :| 0 <= i < |init| && init[i].path == Some(path);
        assert errs[i] == init[i];
      }
    }
  }

  lemma {:induction false} ErrorMapLast(errs: seq<ValidationError>, path: string)
    requires path in ErrorMap(errs)
    ensures
      exists i :: 0 <= i < |errs| && errs[i].path == Some(path) && ErrorMap(errs)[path] == errs[i].message
        && forall j :: i < j < |errs| ==> errs[j].path != Some(path)
  {
    var n := |errs| - 1;
    var init := errs[..n];
    if errs[n].path == Some(path) {
      assert ErrorMap(errs)[path] == errs[n].message;
    } else {
      assert path in ErrorMap(init) && ErrorMap(errs)[path] == ErrorMap(init)[path];
      ErrorMapLast(init, path);
      var i :| 0 <= i < |init| && init[i].path == Some(path) && ErrorMap(init)[path] == init[i].message
        && forall j :: i < j < |init| ==> init[j].path != Some(path);
      assert errs[i] == init[i];
      assert forall j :: i < j < |errs| ==> errs[j].path != Some(path) by {
        forall j | i < j < |errs| ensures errs[j].path != Some(path) {
          if j < n {
            assert errs[j] == init[j];
          }
        }
      }
    }
  }

  /** Folding two runs of failures one after the other: the second run's messages win. */
  lemma {:induction false} ErrorMapAppend(a: seq<ValidationError>, b: seq<ValidationError>)
    ensures ErrorMap(a + b) == ErrorMap(a) + ErrorMap(b)
  {
    if b == [] {
      assert a + b == a;
    } else {
      var n := |b| - 1;
      assert (a + b)[..|a + b| - 1] == a + b[..n];
      assert (a + b)[|a + b| - 1] == b[n];
      ErrorMapAppend(a, b[..n]);
    }
  }

  /** Failures that all name one path leave that path with the last one's message. */
  lemma {:induction false} ErrorMapOnePath(errs: seq<ValidationError>, path: string)
    requires errs != []
    requires forall e :: e in errs ==> e.path == Some(path)
    ensures ErrorMap(errs) == map[path := errs[|errs| - 1].message]
  {
    var n := |errs| - 1;
    if n > 0 {
      assert errs[..n][n - 1] == errs[n - 1];
      ErrorMapOnePath(errs[..n], path);
    } else {
      assert errs[..n] == [];
    }
  }

  /** The message a failing field ends up with: that of its last failing test. */
  function FieldMessage(p: Point, isEmail: string -> bool, f: Field): string {
    var tests := FieldTests(p, isEmail, f);
    if tests == [] then "" else tests[|tests| - 1].message
  }

  /** After a rejected submit the error map holds exactly the paths of the fields whose
      rule the record breaks, each with the message of that field's last failing test. */
  lemma {:induction false} ErrorMapOfTests(p: Point, isEmail: string -> bool, fields: seq<Field>)
    ensures ErrorMap(TestsOf(p, isEmail, fields)).Keys == set f | f in fields && !FieldValid(p, isEmail, f) :: Path(f)
    ensures forall f :: f in fields && !FieldValid(p, isEmail, f) ==>
      ErrorMap(TestsOf(p, isEmail, fields))[Path(f)] == FieldMessage(p, isEmail, f)
  {
    if fields != [] {
      var head, rest := fields[0], fields[1..];
      var first := FieldTests(p, isEmail, head);
      ErrorMapAppend(first, TestsOf(p, isEmail, rest));
      ErrorMapOfTests(p, isEmail, rest);
      FieldTestsSpec(p, isEmail, head);
      var m0 := ErrorMap(first);
      if first != [] {
        ErrorMapOnePath(first, Path(head));
        assert m0 == map[Path(head) := FieldMessage(p, isEmail, head)];
      } else {
        assert m0 == map[];
      }
      var m := ErrorMap(TestsOf(p, isEmail, fields));
      assert forall f :: f in fields <==> f == head || f in rest;
      forall f | f in fields && !FieldValid(p, isEmail, f) ensures m[Path(f)] == FieldMessage(p, isEmail, f) {
        if f !in rest {
          assert f == head;
          if Path(f) in ErrorMap(TestsOf(p, isEmail, rest)) {
            var g :| g in rest && !FieldValid(p, isEmail, g) && Path(g) == Path(f);
            PathInjective(f, g);
          }
        }
      }
    }
  }

  /** The error map of a run of the whole schema. */
  lemma ErrorMapFailingFields(p: Point, isEmail: string -> bool)
    ensures ErrorMap(SchemaErrors(p, isEmail)).Keys == FailingFields(p, isEmail)
    ensures forall f :: f in SchemaFields && !FieldValid(p, isEmail, f) ==>
      ErrorMap(SchemaErrors(p, isEmail))[Path(f)] == FieldMessage(p, isEmail, f)
  {
    ErrorMapOfTests(p, isEmail, SchemaFields);
  }

  /** The loop of the catch block, filling the map one failure at a time. */
  method CollectErrors(inner: seq<ValidationError>) returns (validationErrors: map<string, string>)
    ensures validationErrors == ErrorMap(inner)
  {
    validationErrors := map[];
    var i := 0;
    while i < |inner|
      invariant 0 <= i <= |inner|
      invariant validationErrors == ErrorMap(inner[..i])
    {
      var error := inner[i];
      if error.path.Some? {
        validationErrors := validationErrors[error.path.value := error.message];
      }
      assert inner[..i + 1][..i] == inner[..i];
      i := i + 1;
    }
    assert inner[..|inner|] == inner;
  }

  /** The message a field's error slot shows: nothing when the path is absent or its
      message is empty. */
  function Shown(errors: map<string, string>, path: string): seq<string> {
    if path in errors && errors[path] != "" then [errors[path]] else []
  }

  /** The inline error texts on the page, top to bottom: image, name, email, WhatsApp,
      the location line (for either coordinate), state, city, items. */
  function InlineMessages(errors: map<string, string>): seq<string> {
    Shown(errors, "image") + Shown(errors, "name") + Shown(errors, "email") + Shown(errors, "whatsapp")
    + (if Shown(errors, "latitude") != [] || Shown(errors, "longitude") != [] then [LocationInvalid] else [])
    + Shown(errors, "uf") + Shown(errors, "city") + Shown(errors, "items")
  }

  predicate Blank(v: Option<string>) {
    v == None || v == Some("")
  }

  predicate BlankForm(p: Point) {
    && Blank(p.name) && Blank(p.email) && Blank(p.whatsapp) && Blank(p.uf) && Blank(p.city)
    && p.latitude == 0 && p.longitude == 0 && p.items == [] && p.image == None
  }

  /** What each field's slot says after an untouched form is submitted. */
  function BlankFormMessage(f: Field): string {
    match f
    case Name => NameRequired
    case Email => EmailRequired
    case Whatsapp => WhatsappRequired
    case Uf => UfRequired
    case City => CityRequired
    case Latitude => LatitudeZero
    case Longitude => LongitudeZero
    case Items => ItemsTooFew
    case Image => ImageRequired
  }

  lemma BlankFormField(p: Point, isEmail: string -> bool, f: Field)
    requires BlankForm(p)
    ensures !FieldValid(p, isEmail, f) && FieldMessage(p, isEmail, f) == BlankFormMessage(f)
  {
  }

  /** Submitting the untouched form (blank entries, position (0, 0), no items, no image)
      fails every field. */
  lemma BlankFormFails(p: Point, isEmail: string -> bool)
    requires BlankForm(p)
    ensures FailingFields(p, isEmail) == set f | f in SchemaFields :: Path(f)
  {
  }

  /** The slots of an error map that holds the eight "required"/"choose" messages. */
  lemma InlineMessagesAllRequired(m: map<string, string>)
    requires "image" in m && m["image"] == ImageRequired
    requires "name" in m && m["name"] == NameRequired
    requires "email" in m && m["email"] == EmailRequired
    requires "whatsapp" in m && m["whatsapp"] == WhatsappRequired
    requires "latitude" in m && m["latitude"] != ""
    requires "uf" in m && m["uf"] == UfRequired
    requires "city" in m && m["city"] == CityRequired
    requires "items" in m && m["items"] == ItemsTooFew
    ensures InlineMessages(m) ==
      [ImageRequired, NameRequired, EmailRequired, WhatsappRequired, LocationInvalid, UfRequired, CityRequired, ItemsTooFew]
  {
  }

  lemma BlankFormSlots(m: map<string, string>)
    requires forall f :: Path(f) in m && m[Path(f)] == BlankFormMessage(f)
    ensures InlineMessages(m) ==
      [ImageRequired, NameRequired, EmailRequired, WhatsappRequired, LocationInvalid, UfRequired, CityRequired, ItemsTooFew]
  {
    assert Path(Image) == "image" && Path(Name) == "name" && Path(Email) == "email" && Path(Whatsapp) == "whatsapp";
    assert Path(Latitude) == "latitude" && Path(Uf) == "uf" && Path(City) == "city" && Path(Items) == "items";
    InlineMessagesAllRequired(m);
  }

  lemma BlankFormEntry(p: Point, isEmail: string -> bool, f: Field)
    requires BlankForm(p)
    ensures Path(f) in ErrorMap(SchemaErrors(p, isEmail))
    ensures ErrorMap(SchemaErrors(p, isEmail))[Path(f)] == BlankFormMessage(f)
  {
    ErrorMapFailingFields(p, isEmail);
    BlankFormField(p, isEmail, f);
    assert f in SchemaFields;
  }

  /** After submitting the untouched form the page shows the eight "required"/"choose"
      messages; the two coordinate failures share the one location line. */
  lemma BlankFormMessages(p: Point, isEmail: string -> bool)
    requires BlankForm(p)
    ensures InlineMessages(ErrorMap(SchemaErrors(p, isEmail))) ==
      [ImageRequired, NameRequired, EmailRequired, WhatsappRequired, LocationInvalid, UfRequired, CityRequired, ItemsTooFew]
  {
    var m := ErrorMap(SchemaErrors(p, isEmail));
    forall f ensures Path(f) in m && m[Path(f)] == BlankFormMessage(f) {
      BlankFormEntry(p, isEmail, f);
    }
    BlankFormSlots(m);
  }
}
