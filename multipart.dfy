/** The multipart body posted to the registry once the record has passed validation:
    the text entries, the coordinates as text, the selected item ids joined by commas,
    and the image when one was chosen. */
module Multipart {
  import opened Wrappers
  import opened Decimal
  import opened Validation

  datatype PartValue = Text(text: string) | Blob(file: File)

  datatype Part = Part(name: string, value: PartValue)

  /** The text `FormData.append` stores for a form entry: the entry itself, or the text
      "undefined" for a control the form did not submit. */
  function EntryText(v: Option<string>): string {
    if v.Some? then v.value else "undefined"
  }

  function Names(parts: seq<Part>): (names: seq<string>)
    ensures |names| == |parts|
  {
    if parts == [] then [] else [parts[0].name] + Names(parts[1..])
  }

  /** `FormData.get`: the value of the first part with that name. */
  function Get(parts: seq<Part>, name: string): Option<PartValue> {
    if parts == [] then None
    else if parts[0].name == name then Some(parts[0].value)
    else Get(parts[1..], name)
  }

  lemma {:induction false} GetFirst(parts: seq<Part>, i: nat, name: string)
    requires i < |parts| && parts[i].name == name
    requires forall j :: 0 <= j < i ==> parts[j].name != name
    ensures Get(parts, name) == Some(parts[i].value)
  {
    if i > 0 {
      GetFirst(parts[1..], i - 1, name);
    }
  }

  lemma {:induction false} GetMissing(parts: seq<Part>, name: string)
    requires forall j :: 0 <= j < |parts| ==> parts[j].name != name
    ensures Get(parts, name) == None
  {
    if parts != [] {
      GetMissing(parts[1..], name);
    }
  }

  function TextOf(v: Option<PartValue>): Option<string> {
    if v.Some? && v.value.Text? then Some(v.value.text) else None
  }

  /** The body, part by part, in the order the parts are appended. */
  function Payload(p: Point): seq<Part> {
    [ Part("name", Text(EntryText(p.name))),
      Part("email", Text(EntryText(p.email))),
      Part("whatsapp", Text(EntryText(p.whatsapp))),
      Part("uf", Text(EntryText(p.uf))),
      Part("city", Text(EntryText(p.city))),
      Part("latitude", Text(IntToString(p.latitude))),
      Part("longitude", Text(IntToString(p.longitude))),
      Part("items", Text(JoinIds(p.items))) ]
    + (if p.image.Some? then [Part("image", Blob(p.image.value))] else [])
  }

  /** The eight text parts always come first and in this order; the coordinates are
      their decimal text, the items the ids joined by ',' in selection order, and the
      image part is there exactly when a file was chosen. */
  lemma PayloadShape(p: Point)
    ensures Names(Payload(p)) ==
      ["name", "email", "whatsapp", "uf", "city", "latitude", "longitude", "items"]
      + (if p.image.Some? then ["image"] else [])
    ensures TextOf(Get(Payload(p), "name")) == Some(EntryText(p.name))
    ensures TextOf(Get(Payload(p), "email")) == Some(EntryText(p.email))
    ensures TextOf(Get(Payload(p), "whatsapp")) == Some(EntryText(p.whatsapp))
    ensures TextOf(Get(Payload(p), "uf")) == Some(EntryText(p.uf))
    ensures TextOf(Get(Payload(p), "city")) == Some(EntryText(p.city))
    ensures TextOf(Get(Payload(p), "latitude")) == Some(IntToString(p.latitude))
    ensures TextOf(Get(Payload(p), "longitude")) == Some(IntToString(p.longitude))
    ensures TextOf(Get(Payload(p), "items")) == Some(JoinIds(p.items))
    ensures Get(Payload(p), "image") == if p.image.Some? then Some(Blob(p.image.value)) else None
  {
    NamesOfPayload(p);
    PayloadEntries(p);
    PayloadNumbers(p);
    PayloadImage(p);
  }

  lemma PayloadEntries(p: Point)
    ensures TextOf(Get(Payload(p), "name")) == Some(EntryText(p.name))
    ensures TextOf(Get(Payload(p), "email")) == Some(EntryText(p.email))
    ensures TextOf(Get(Payload(p), "whatsapp")) == Some(EntryText(p.whatsapp))
    ensures TextOf(Get(Payload(p), "uf")) == Some(EntryText(p.uf))
    ensures TextOf(Get(Payload(p), "city")) == Some(EntryText(p.city))
  {
    var parts := Payload(p);
    GetFirst(parts, 0, "name");
    GetFirst(parts, 1, "email");
    GetFirst(parts, 2, "whatsapp");
    GetFirst(parts, 3, "uf");
    GetFirst(parts, 4, "city");
  }

  lemma PayloadNumbers(p: Point)
    ensures TextOf(Get(Payload(p), "latitude")) == Some(IntToString(p.latitude))
    ensures TextOf(Get(Payload(p), "longitude")) == Some(IntToString(p.longitude))
    ensures TextOf(Get(Payload(p), "items")) == Some(JoinIds(p.items))
  {
    var parts := Payload(p);
    GetFirst(parts, 5, "latitude");
    GetFirst(parts, 6, "longitude");
    GetFirst(parts, 7, "items");
  }

  lemma PayloadImage(p: Point)
    ensures Get(Payload(p), "image") == if p.image.Some? then Some(Blob(p.image.value)) else None
  {
    var parts := Payload(p);
    if p.image.Some? {
      GetFirst(parts, 8, "image");
    } else {
      GetMissing(parts, "image");
    }
  }

  lemma NamesOfPayload(p: Point)
    ensures Names(Payload(p)) ==
      ["name", "email", "whatsapp", "uf", "city", "latitude", "longitude", "items"]
      + (if p.image.Some? then ["image"] else [])
  {
    var parts := Payload(p);
    var names := ["name", "email", "whatsapp", "uf", "city", "latitude", "longitude", "items"]
      + (if p.image.Some? then ["image"] else []);
    NamesAt(parts);
    assert |names| == |parts|;
    forall i | 0 <= i < |parts| ensures Names(parts)[i] == names[i] {
    }
  }

  lemma {:induction false} NamesAt(parts: seq<Part>)
    ensures forall i :: 0 <= i < |parts| ==> Names(parts)[i] == parts[i].name
  {
    if parts != [] {
      NamesAt(parts[1..]);
    }
  }

  /** A reference reader of the body, back into a record: every text entry, the two
      coordinates and the item list must be present and readable; the image is optional. */
  function DecodePayload(parts: seq<Part>): Option<Point> {
    var name, email, whatsapp := TextOf(Get(parts, "name")), TextOf(Get(parts, "email")), TextOf(Get(parts, "whatsapp"));
    var uf, city := TextOf(Get(parts, "uf")), TextOf(Get(parts, "city"));
    var latitude, longitude := TextOf(Get(parts, "latitude")), TextOf(Get(parts, "longitude"));
    var items := TextOf(Get(parts, "items"));
    var image := match Get(parts, "image") case Some(Blob(f)) => Some(f) case _ => None;
    if name.Some? && email.Some? && whatsapp.Some? && uf.Some? && city.Some?
      && latitude.Some? && ParseInt(latitude.value).Some?
      && longitude.Some? && ParseInt(longitude.value).Some?
      && items.Some? && DecodeIds(items.value).Some?
    then Some(Point(name, email, whatsapp, uf, city,
      ParseInt(latitude.value).value, ParseInt(longitude.value).value, DecodeIds(items.value).value, image))
    else None
  }

  lemma DecodeFields(parts: seq<Part>, p: Point)
    requires TextOf(Get(parts, "name")) == p.name && TextOf(Get(parts, "email")) == p.email
    requires TextOf(Get(parts, "whatsapp")) == p.whatsapp && TextOf(Get(parts, "uf")) == p.uf
    requires TextOf(Get(parts, "city")) == p.city
    requires p.name.Some? && p.email.Some? && p.whatsapp.Some? && p.uf.Some? && p.city.Some?
    requires TextOf(Get(parts, "latitude")) == Some(IntToString(p.latitude))
    requires TextOf(Get(parts, "longitude")) == Some(IntToString(p.longitude))
    requires TextOf(Get(parts, "items")) == Some(JoinIds(p.items)) && DecodeIds(JoinIds(p.items)) == Some(p.items)
    requires Get(parts, "image") == if p.image.Some? then Some(Blob(p.image.value)) else None
    ensures DecodePayload(parts) == Some(p)
  {
    ParseIntToString(p.latitude);
    ParseIntToString(p.longitude);
  }

  /** A record whose text entries were all submitted and which has at least one item (as
      every record that passes validation does) is read back from its body unchanged. */
  lemma PayloadRoundTrip(p: Point)
    requires p.name.Some? && p.email.Some? && p.whatsapp.Some? && p.uf.Some? && p.city.Some?
    requires |p.items| > 0
    ensures DecodePayload(Payload(p)) == Some(p)
  {
    PayloadShape(p);
    DecodeJoinIds(p.items);
    DecodeFields(Payload(p), p);
  }

  /** The browser's `FormData` object, which the handler fills one part at a time. */
  class FormData {
    var parts: seq<Part>

    constructor ()
      ensures parts == []
    {
      parts := [];
    }

    method Append(name: string, value: PartValue)
      modifies this
      ensures parts == old(parts) + [Part(name, value)]
    {
      parts := parts + [Part(name, value)];
    }
  }

  /** The successive `append` calls of the submit handler. */
  method BuildPayload(p: Point) returns (data: FormData)
    ensures fresh(data) && data.parts == Payload(p)
  {
    data := new FormData();
    data.Append("name", Text(EntryText(p.name)));
    data.Append("email", Text(EntryText(p.email)));
    data.Append("whatsapp", Text(EntryText(p.whatsapp)));
    data.Append("uf", Text(EntryText(p.uf)));
    data.Append("city", Text(EntryText(p.city)));
    data.Append("latitude", Text(IntToString(p.latitude)));
    data.Append("longitude", Text(IntToString(p.longitude)));
    data.Append("items", Text(JoinIds(p.items)));
    if p.image.Some? {
      data.Append("image", Blob(p.image.value));
    }
  }
}
