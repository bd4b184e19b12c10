/** The registration page: its state, the handlers that overwrite it, and what it asks
    of the outside world. Results of HTTP calls, of geolocation and of the e-mail format
    check arrive as parameters; requests, toasts and the redirect timer are recorded in
    the page so that their effects can be stated. */
module Register {
  import opened Wrappers
  import opened Validation
  import opened Multipart
  import opened Lists
  import opened ItemSelection

  /** The two HTTP clients: the registry (items, points) and the geography service. */
  datatype Service = Registry | Geography

  datatype Request = Get(service: Service, path: string) | Post(service: Service, path: string, body: seq<Part>)

  /** How a request ended: with a body, or with an error of any kind. */
  datatype Response<T> = Received(data: T) | Failed

  /** A callback scheduled with `setTimeout`: navigate to `target` after `delayMs`. */
  datatype Timeout = Timeout(delayMs: nat, target: string)

  /** The named entries of the submitted form element. */
  datatype FormEntries = FormEntries(
    name: Option<string>,
    email: Option<string>,
    whatsapp: Option<string>,
    uf: Option<string>,
    city: Option<string>)

  const ItemsLoadFailed := "Opa! Alguma coisa deu errado ao tentar carregar a lista de items para coleta, tente recarregar a pagina!"
  const UfsLoadFailed := "Opa! Alguma coisa deu errado ao tentar carregar a lista de estados, tente recarregar a pagina!"
  const CitiesLoadFailed := "Opa! Alguma coisa deu errado ao tentar carregar a lista de municípios, tente recarregar a pagina!"
  const SubmitFailed := "Opa! Alguma coisa deu errado, tente novamente mais tarde!"
  const RedirectDelayMs := 2000
  const HomePath := "/"

  function CitiesPath(uf: string): string {
    "/estados/" + uf + "/municipios"
  }

  /** How one submit ends. */
  datatype Outcome =
    | Rejected(fieldErrors: map<string, string>)
    | PostFailed(body: seq<Part>)
    | Registered(body: seq<Part>)

  /** The submit handler's decision for a candidate record: the schema's failures as
      field errors, or the body posted and whether the post succeeded. */
  function SubmitOutcome(p: Point, isEmail: string -> bool, postSucceeds: bool): Outcome {
    match Validate(p, isEmail)
    case Invalid(inner) => Rejected(ErrorMap(inner))
    case Valid => if postSucceeds then Registered(Payload(p)) else PostFailed(Payload(p))
  }

  /** A record the schema rejects yields field errors for exactly its failing fields,
      each with that field's last failing message, and is never posted; an accepted
      record is posted as a body that reads back to the record, and only a successful
      post registers it. */
  lemma SubmitOutcomeSpec(p: Point, isEmail: string -> bool, postSucceeds: bool)
    ensures var r := SubmitOutcome(p, isEmail, postSucceeds);
      && (r.Rejected? <==> !ValidRecord(p, isEmail))
      && (r.Rejected? ==> r.fieldErrors.Keys == FailingFields(p, isEmail) && r.fieldErrors != map[])
      && (r.Rejected? ==> forall f :: f in SchemaFields && !FieldValid(p, isEmail, f) ==>
            r.fieldErrors[Path(f)] == FieldMessage(p, isEmail, f))
      && (r.Registered? <==> ValidRecord(p, isEmail) && postSucceeds)
      && (!r.Rejected? ==> r.body == Payload(p) && DecodePayload(r.body) == Some(p))
  {
    match Validate(p, isEmail)
    case Invalid(inner) =>
      ErrorMapFailingFields(p, isEmail);
      ValidRecordFields(p, isEmail);
      var f :| f in SchemaFields && !FieldValid(p, isEmail, f);
      assert Path(f) in FailingFields(p, isEmail);
    case Valid =>
      PayloadRoundTrip(p);
  }

  /** Submitting the untouched page is rejected with the eight "required"/"choose"
      messages on screen, whatever the post would have done. */
  lemma BlankSubmitRejected(p: Point, isEmail: string -> bool, postSucceeds: bool)
    requires BlankForm(p)
    ensures SubmitOutcome(p, isEmail, postSucceeds).Rejected?
    ensures InlineMessages(SubmitOutcome(p, isEmail, postSucceeds).fieldErrors) ==
      [ImageRequired, NameRequired, EmailRequired, WhatsappRequired, LocationInvalid, UfRequired, CityRequired, ItemsTooFew]
  {
    BlankFormFails(p, isEmail);
    assert Path(Name) in FailingFields(p, isEmail);
    BlankFormMessages(p, isEmail);
  }

  class RegisterPage {
    var items: seq<Item>
    var ufs: seq<string>
    var cities: seq<string>
    var selectedFile: Option<File>
    var showOverlay: bool
    var selectedItems: seq<int>
    var latitude: int
    var longitude: int
    var errors: map<string, string>

    // What the page has asked of the outside world, oldest first.
    var requests: seq<Request>
    var toasts: seq<string>
    var timers: seq<Timeout>

    /** The page's invariant: the selection has no duplicates, the state codes are in
        sorted order, the error map only names schema keys, and the success overlay is
        shown exactly when the redirect has been scheduled. */
    ghost predicate Valid()
      reads this
    {
      && Distinct(selectedItems)
      && Sorted(ufs)
      && (forall k :: k in errors ==> exists f :: f in SchemaFields && k == Path(f))
      && (showOverlay <==> timers != [])
    }

    /** Mounting: every field at its initial value, position (0, 0); the item list and
        the state list are requested (the geolocation request is not an HTTP one). */
    constructor ()
      ensures Valid()
      ensures items == [] && ufs == [] && cities == [] && selectedFile == None && !showOverlay
      ensures selectedItems == [] && latitude == 0 && longitude == 0 && errors == map[]
      ensures requests == [Get(Registry, "/items"), Get(Geography, "/estados")]
      ensures toasts == [] && timers == []
    {
      items, ufs, cities := [], [], [];
      selectedFile, showOverlay := None, false;
      selectedItems := [];
      latitude, longitude := 0, 0;
      errors := map[];
      requests := [Get(Registry, "/items"), Get(Geography, "/estados")];
      toasts, timers := [], [];
    }

    /** The geolocation success callback; a failed lookup calls nothing, and nothing
        else ever changes the position. */
    method PositionFound(lat: int, lng: int)
      requires Valid()
      modifies this`latitude, this`longitude
      ensures Valid()
      ensures latitude == lat && longitude == lng
    {
      latitude, longitude := lat, lng;
    }

    /** Completion of the item-list request. */
    method ItemsLoaded(response: Response<seq<Item>>)
      requires Valid()
      modifies this`items, this`toasts
      ensures Valid()
      ensures items == if response.Received? then response.data else old(items)
      ensures toasts == old(toasts) + if response.Failed? then [ItemsLoadFailed] else []
    {
      match response
      case Received(data) =>
        items := data;
      case Failed =>
        toasts := toasts + [ItemsLoadFailed];
    }

    /** Completion of the state-list request: the fetched codes, sorted. */
    method UfsLoaded(response: Response<seq<Uf>>)
      requires Valid()
      modifies this`ufs, this`toasts
      ensures Valid()
      ensures ufs == if response.Received? then UfOptions(response.data) else old(ufs)
      ensures toasts == old(toasts) + if response.Failed? then [UfsLoadFailed] else []
    {
      match response
      case Received(data) =>
        ufs := UfOptions(data);
      case Failed =>
        toasts := toasts + [UfsLoadFailed];
    }

    /** A change of the state select: the chosen state's cities are requested and, when
        they arrive, replace the city list wholesale, in the order received; on failure
        the list stays as it was and one toast is shown. */
    method SelectUf(uf: string, response: Response<seq<City>>)
      requires Valid()
      modifies this`cities, this`toasts, this`requests
      ensures Valid()
      ensures requests == old(requests) + [Get(Geography, CitiesPath(uf))]
      ensures cities == if response.Received? then CityNames(response.data) else old(cities)
      ensures toasts == old(toasts) + if response.Failed? then [CitiesLoadFailed] else []
    {
      requests := requests + [Get(Geography, CitiesPath(uf))];
      match response
      case Received(data) =>
        cities := CityNames(data);
      case Failed =>
        toasts := toasts + [CitiesLoadFailed];
    }

    /** A click on a collection item. */
    method SelectItem(id: int)
      requires Valid()
      modifies this`selectedItems
      ensures Valid()
      ensures selectedItems == Toggle(old(selectedItems), id)
    {
      ToggleDistinct(selectedItems, id);
      selectedItems := Toggle(selectedItems, id);
    }

    /** The dropzone hands over the chosen image. */
    method SelectFile(file: File)
      requires Valid()
      modifies this`selectedFile
      ensures Valid()
      ensures selectedFile == Some(file)
    {
      selectedFile := Some(file);
    }

    /** The record a submit validates: the form's entries, the page's position, the
        selected items and the chosen image. */
    function Candidate(form: FormEntries): Point
      reads this`latitude, this`longitude, this`selectedItems, this`selectedFile
    {
      Point(form.name, form.email, form.whatsapp, form.uf, form.city,
        latitude, longitude, selectedItems, selectedFile)
    }

    /** The catch block: the schema's failures become the error map. */
    method ShowErrors(p: Point, isEmail: string -> bool, postSucceeds: bool, inner: seq<ValidationError>)
      requires Valid() && Validate(p, isEmail) == Invalid(inner)
      modifies this`errors
      ensures Valid()
      ensures var r := SubmitOutcome(p, isEmail, postSucceeds); r.Rejected? && errors == r.fieldErrors
    {
      var validationErrors := CollectErrors(inner);
      ErrorMapFailingFields(p, isEmail);
      errors := validationErrors;
    }

    /** The POST of an accepted record, and what its result shows. */
    method PostPoint(p: Point, isEmail: string -> bool, postSucceeds: bool)
      requires Valid() && Validate(p, isEmail).Valid?
      modifies this`requests, this`showOverlay, this`toasts, this`timers
      ensures Valid()
      ensures var r := SubmitOutcome(p, isEmail, postSucceeds);
        && !r.Rejected?
        && requests == old(requests) + [Post(Registry, "/points", r.body)]
        && showOverlay == (r.Registered? || old(showOverlay))
        && toasts == old(toasts) + (if r.PostFailed? then [SubmitFailed] else [])
        && timers == old(timers) + (if r.Registered? then [Timeout(RedirectDelayMs, HomePath)] else [])
    {
      var data := BuildPayload(p);
      requests := requests + [Post(Registry, "/points", data.parts)];
      if postSucceeds {
        showOverlay := true;
        timers := timers + [Timeout(RedirectDelayMs, HomePath)];
      } else {
        toasts := toasts + [SubmitFailed];
      }
    }

    /** The submit handler. The error map is cleared first; a rejected record leaves
        exactly its field errors and sends nothing; an accepted one is posted, and then
        either the overlay is shown and the redirect home scheduled, or one generic toast
        is shown and the overlay left as it was. */
    method Submit(form: FormEntries, isEmail: string -> bool, postSucceeds: bool)
      requires Valid()
      modifies this`errors, this`requests, this`showOverlay, this`toasts, this`timers
      ensures Valid()
      ensures var r := SubmitOutcome(Candidate(form), isEmail, postSucceeds);
        && errors == (if r.Rejected? then r.fieldErrors else map[])
        && requests == old(requests) + (if r.Rejected? then [] else [Post(Registry, "/points", r.body)])
        && showOverlay == (r.Registered? || old(showOverlay))
        && toasts == old(toasts) + (if r.PostFailed? then [SubmitFailed] else [])
        && timers == old(timers) + (if r.Registered? then [Timeout(RedirectDelayMs, HomePath)] else [])
    {
      errors := map[];
      var point := Candidate(form);
      var verdict := Validate(point, isEmail);
      if verdict.Invalid? {
        ShowErrors(point, isEmail, postSucceeds, verdict.inner);
      } else {
        PostPoint(point, isEmail, postSucceeds);
      }
      assert Candidate(form) == point;
    }
  }
}
