/** The selected body of a request (body.go, multipart.go). */
module Body {
  import opened Base
  import opened Headers

  datatype Kind =
    | Nothing | JSON | XML | YAML | PlainText | RawBytes | Reader | Form | MultipartForm

  /** A file part: its structural field name and the metadata that stays private. */
  datatype FilePart = FilePart(field: Text, filename: Text, contentType: Text, hasBody: bool)

  datatype Multipart = Multipart(
    fields: map<Text, seq<Text>>, parts: seq<FilePart>, boundary: Text, replayLimit: Option<int>)

  /** requestBodyPlan. `content` is the text or byte body with its disclosure
      tag, or the opaque typed value behind JSON, XML and YAML. */
  datatype Plan = Plan(
    kind: Kind, content: Value, form: seq<Occurrence>, multipart: Option<Multipart>,
    contentType: Text, generated: bool, readerLength: Option<nat>, nilReader: bool)

  const FORM_MEDIA_TYPE: Text := "application/x-www-form-urlencoded"

  const NO_BODY: Plan := Plan(Nothing, Private([]), [], None, [], false, None, false)

  /** The media type the library itself generates for a kind of body. */
  function MediaType(kind: Kind): Text {
    match kind
    case JSON => "application/json"
    case XML => "application/xml"
    case YAML => "application/yaml"
    case PlainText => "text/plain"
    case Form => FORM_MEDIA_TYPE
    case MultipartForm => "multipart/form-data"
    case _ => []
  }

  /** preparedBodyMediaType. */
  function ShownMediaType(body: Plan): Text {
    if body.generated then MediaType(body.kind) else []
  }

  /** One body setter of the builder. */
  datatype Choice =
    | ChooseTyped(kind: Kind, value: Value)
    | ChooseText(value: Value)
    | ChooseBytes(value: Value)
    | ChooseReader(contentType: Text, length: Option<nat>, isNil: bool)
    | ChooseForm(form: seq<Occurrence>)
    | ChooseMultipart(multipart: Multipart)

  predicate ValidChoice(c: Choice) {
    c.ChooseTyped? ==> c.kind in {JSON, XML, YAML}
  }

  /** The plan each setter hands to selectBody. */
  function PlanFor(c: Choice): Plan {
    match c
    case ChooseTyped(kind, value) => NO_BODY.(kind := kind, content := value.(public := false), contentType := MediaType(kind), generated := true)
    case ChooseText(value) => NO_BODY.(kind := PlainText, content := value, contentType := MediaType(PlainText), generated := true)
    case ChooseBytes(value) => NO_BODY.(kind := RawBytes, content := value)
    case ChooseReader(ct, length, isNil) =>
      NO_BODY.(kind := Reader, contentType := ct, generated := ct != [], readerLength := length, nilReader := isNil)
    case ChooseForm(form) => NO_BODY.(kind := Form, form := form, contentType := FORM_MEDIA_TYPE, generated := true)
    case ChooseMultipart(m) => NO_BODY.(kind := MultipartForm, multipart := Some(m), generated := true)
  }
}
