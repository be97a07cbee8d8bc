/** The per-endpoint content-type policy and the choice of request body
    (sellsyapi/client.py, the table built in `__init__` and its use in `_request`). */
module ContentTypes {
  import opened Wrappers
  import opened JsonValues

  const ApplicationJson: string := "application/json"
  const PlainText: string := "text/plain"

  /** Endpoints whose content type is fixed by the client; only `batch`
      takes raw text, every listed search endpoint takes JSON. */
  const PostContentType: map<string, string> := map[
    "batch" := PlainText,
    "opportunities/search" := ApplicationJson,
    "individuals/search" := ApplicationJson,
    "invoices/search" := ApplicationJson,
    "credit-notes/search" := ApplicationJson,
    "estimates/search" := ApplicationJson,
    "comments/search" := ApplicationJson,
    "companies/search" := ApplicationJson,
    "contacts/search" := ApplicationJson
  ]

  predicate EndsWith(s: string, suffix: string) {
    |suffix| <= |s| && s[|s| - |suffix|..] == suffix
  }

  /** The content type sent for `endpoint`: its table entry, else JSON. */
  function ContentTypeFor(endpoint: string): (r: string)
    ensures endpoint in PostContentType ==> r == PostContentType[endpoint]
    ensures endpoint !in PostContentType ==> r == ApplicationJson
    ensures r == PlainText <==> endpoint == "batch"
    ensures r == PlainText || r == ApplicationJson
  {
    if endpoint in PostContentType then PostContentType[endpoint] else ApplicationJson
  }

  /** Every table entry other than `batch` is a search endpoint. */
  lemma ListedEndpointsAreBatchOrSearch(endpoint: string)
    requires endpoint in PostContentType
    ensures endpoint == "batch" || EndsWith(endpoint, "/search")
  {
  }

  /** What goes into the request body: JSON text, or the dict as given. */
  datatype Body = Encoded(text: string) | Raw(data: Object)

  /** The body for `data` under `contentType`: a missing body becomes the
      empty dict, which is then serialised by `dumps` exactly when the
      content type is JSON and otherwise passed through unchanged. */
  function EncodeBody(contentType: string, data: Option<Object>, dumps: Object -> string): (r: Body)
    ensures r.Encoded? <==> contentType == ApplicationJson
    ensures r.Encoded? ==> r.text == dumps(data.GetOr(map[]))
    ensures r.Raw? ==> r.data == data.GetOr(map[])
  {
    var d := data.GetOr(map[]);
    if contentType == ApplicationJson then Encoded(dumps(d)) else Raw(d)
  }

  /** The body of a call to `endpoint` is serialised exactly when the
      endpoint is not `batch`; a `batch` body goes out untouched. */
  lemma BodyEncodedUnlessBatch(endpoint: string, data: Option<Object>, dumps: Object -> string)
    ensures EncodeBody(ContentTypeFor(endpoint), data, dumps).Encoded? <==> endpoint != "batch"
    ensures endpoint == "batch" ==>
      EncodeBody(ContentTypeFor(endpoint), data, dumps) == Raw(data.GetOr(map[]))
  {
  }
}
