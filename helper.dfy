/**
 * The request-building helpers: path-placeholder substitution, query
 * parameter expansion, header setup, URL composition, MIME detection and the
 * headers of a multipart file upload.
 */
module RequestHelpers {
  import opened Wrappers
  import opened Text
  import opened Localization

  /** A header or query parameter: name and value. */
  type Pair = (string, string)

  // ---------------------------------------------------------------------
  // Path parameters

  /** The placeholder `{key}` that a path parameter fills. */
  function PathPlaceholder(key: string): (p: string)
    ensures |p| == |key| + 2 && p[0] == '{'
  {
    "{" + key + "}"
  }

  /** The fold over the entries, in order: each replaces every `{key}` in what the earlier ones left. */
  function ApplyPathParameters(acc: string, entries: seq<Pair>): string
    decreases |entries|
  {
    if |entries| == 0 then acc
    else ApplyPathParameters(ReplaceAll(acc, PathPlaceholder(entries[0].0), entries[0].1), entries[1..])
  }

  /** `addPathParameters`: a null or empty map leaves the endpoint as it is. */
  function AddPathParameters(endpoint: string, pathParameters: Option<seq<Pair>>): (r: string)
    ensures pathParameters.None? || pathParameters.value == [] ==> r == endpoint
  {
    match pathParameters
    case None => endpoint
    case Some(entries) => ApplyPathParameters(endpoint, entries)
  }

  /** An endpoint holding none of the entries' placeholders comes back unchanged. */
  lemma {:induction false} PathParametersWithoutPlaceholders(endpoint: string, entries: seq<Pair>)
    requires forall i :: 0 <= i < |entries| ==> Free(endpoint, PathPlaceholder(entries[i].0))
    ensures AddPathParameters(endpoint, Some(entries)) == endpoint
    decreases |entries|
  {
    if |entries| > 0 {
      ReplaceAllFree(endpoint, PathPlaceholder(entries[0].0), entries[0].1);
      assert ApplyPathParameters(endpoint, entries) == ApplyPathParameters(endpoint, entries[1..]);
      forall i | 0 <= i < |entries[1..]|
        ensures Free(endpoint, PathPlaceholder(entries[1..][i].0))
      {
        assert entries[1..][i] == entries[i + 1];
      }
      PathParametersWithoutPlaceholders(endpoint, entries[1..]);
    }
  }

  /**
   * With one entry, every occurrence of `{key}` that a left-to-right scan
   * finds is replaced: the result is the placeholder-free pieces of the
   * endpoint joined by the value.
   */
  lemma OneParameterReplacesEveryOccurrence(endpoint: string, key: string, value: string)
    ensures AddPathParameters(endpoint, Some([(key, value)])) == Join(Split(endpoint, PathPlaceholder(key)), value)
    ensures forall k :: 0 <= k < |Split(endpoint, PathPlaceholder(key))| ==>
      Free(Split(endpoint, PathPlaceholder(key))[k], PathPlaceholder(key))
  {
    var p := PathPlaceholder(key);
    assert [(key, value)][1..] == [];
    assert ApplyPathParameters(endpoint, [(key, value)]) == ReplaceAll(endpoint, p, value);
    ReplaceAllIsJoinSplit(endpoint, p, value);
  }

  /** A single placeholder between brace-free text is replaced by its value. */
  lemma SubstituteOnePlaceholder(pre: string, key: string, post: string, value: string)
    requires '{' !in pre && '{' !in post
    ensures AddPathParameters(pre + PathPlaceholder(key) + post, Some([(key, value)])) == pre + value + post
  {
    var p := PathPlaceholder(key);
    assert [(key, value)][1..] == [];
    assert ApplyPathParameters(pre + p + post, [(key, value)]) == ReplaceAll(pre + p + post, p, value);
    ReplaceAllAfterFree(pre, p, post, value);
    FreeOfFirstChar(post, p);
    ReplaceAllFree(post, p, value);
  }

  /** `buildRequestUrl`: the REST base URL followed by the endpoint with its path parameters filled in. */
  function BuildRequestUrl(restBaseUrl: string, endpoint: string, pathParameters: Option<seq<Pair>>): (url: string)
    ensures |url| >= |restBaseUrl| && url[..|restBaseUrl|] == restBaseUrl
    ensures url[|restBaseUrl|..] == AddPathParameters(endpoint, pathParameters)
  {
    restBaseUrl + AddPathParameters(endpoint, pathParameters)
  }

  // ---------------------------------------------------------------------
  // Query parameters

  /** An element of a list-valued query parameter: a string, or anything else (by its `toString`). */
  datatype QueryItem = TextItem(text: string) | OtherItem(shown: string)

  /** A query parameter's value: a string, a list, or anything else (by its `toString`). */
  datatype QueryValue = TextValue(text: string) | ListValue(items: seq<QueryItem>) | OtherValue(shown: string)

  /** How an item is appended: a string as it is, anything else stringified. */
  function Show(item: QueryItem): string {
    match item
    case TextItem(t) => t
    case OtherItem(shown) => shown
  }

  /** The pairs a list value appends, in list order. */
  function ItemPairs(key: string, items: seq<QueryItem>): seq<Pair>
    decreases |items|
  {
    if |items| == 0 then [] else ItemPairs(key, items[..|items| - 1]) + [(key, Show(items[|items| - 1]))]
  }

  /** A list appends exactly one pair per element, in list order, each under the parameter's key. */
  lemma {:induction false} ItemPairsOnePerElement(key: string, items: seq<QueryItem>)
    ensures |ItemPairs(key, items)| == |items|
    ensures forall i :: 0 <= i < |items| ==> ItemPairs(key, items)[i] == (key, Show(items[i]))
    decreases |items|
  {
    if |items| > 0 {
      var init := items[..|items| - 1];
      ItemPairsOnePerElement(key, init);
      forall i | 0 <= i < |init|
        ensures init[i] == items[i]
      {
      }
    }
  }

  /** The pairs one entry appends. */
  function EntryPairs(key: string, value: QueryValue): (ps: seq<Pair>)
    ensures value.TextValue? ==> ps == [(key, value.text)]
    ensures value.OtherValue? ==> ps == [(key, value.shown)]
  {
    match value
    case TextValue(t) => [(key, t)]
    case ListValue(items) => ItemPairs(key, items)
    case OtherValue(shown) => [(key, shown)]
  }

  /** The pairs a sequence of entries appends, entry after entry. */
  function EntriesPairs(entries: seq<(string, QueryValue)>): seq<Pair>
    decreases |entries|
  {
    if |entries| == 0 then []
    else EntriesPairs(entries[..|entries| - 1]) + EntryPairs(entries[|entries| - 1].0, entries[|entries| - 1].1)
  }

  /** What `addQueryParameters` appends: nothing for a null map. */
  function QueryPairs(queryParameters: Option<seq<(string, QueryValue)>>): (ps: seq<Pair>)
    ensures queryParameters.None? ==> ps == []
  {
    match queryParameters
    case None => []
    case Some(entries) => EntriesPairs(entries)
  }

  /** The parameters of a URL under construction, in the order they were appended. */
  class UrlParameters {
    var pairs: seq<Pair>

    constructor ()
      ensures pairs == []
    {
      pairs := [];
    }

    /** `addQueryParameters`: appends every entry's pairs after the parameters already there. */
    method AddQueryParameters(queryParameters: Option<seq<(string, QueryValue)>>)
      modifies this
      ensures pairs == old(pairs) + QueryPairs(queryParameters)
    {
      if queryParameters.Some? {
        var entries := queryParameters.value;
        for i := 0 to |entries|
          invariant pairs == old(pairs) + EntriesPairs(entries[..i])
        {
          assert entries[..i + 1][..i] == entries[..i];
          var (key, value) := entries[i];
          match value {
            case TextValue(t) =>
              pairs := pairs + [(key, t)];
            case ListValue(items) =>
              AddListItems(key, items);
            case OtherValue(shown) =>
              pairs := pairs + [(key, shown)];
          }
        }
        assert entries[..|entries|] == entries;
      }
    }

    /** The list branch of `addQueryParameters`: one pair per element, in list order. */
    method AddListItems(key: string, items: seq<QueryItem>)
      modifies this
      ensures pairs == old(pairs) + ItemPairs(key, items)
    {
      for j := 0 to |items|
        invariant pairs == old(pairs) + ItemPairs(key, items[..j])
      {
        assert items[..j + 1][..j] == items[..j];
        var item := items[j];
        if item.TextItem? {
          pairs := pairs + [(key, item.text)];
        } else {
          pairs := pairs + [(key, item.shown)];
        }
      }
      assert items[..|items|] == items;
    }
  }

  // ---------------------------------------------------------------------
  // Headers

  /** `Authorization: Bearer <token>`, sent even for an empty token. */
  function AuthorizationHeader(token: string): Pair {
    ("Authorization", "Bearer " + token)
  }

  /** The `language` header. */
  function LocaleHeader(locale: string): Pair {
    ("language", locale)
  }

  /** What `setupAllHeaders` appends: authorization, then the language of a present handler, then the custom headers in order. */
  function AllHeaders(token: string, handlerLocale: Option<Locale>, customHeaders: seq<Pair>): seq<Pair> {
    [AuthorizationHeader(token)]
    + (if handlerLocale.Some? then [LocaleHeader(LocaleName(handlerLocale.value))] else [])
    + customHeaders
  }

  /** The order of `setupAllHeaders`: Authorization first, `language` second exactly when a handler is present, the custom headers last. */
  lemma AllHeadersOrder(token: string, handlerLocale: Option<Locale>, customHeaders: seq<Pair>)
    ensures var hs := AllHeaders(token, handlerLocale, customHeaders);
      && |hs| == 1 + (if handlerLocale.Some? then 1 else 0) + |customHeaders|
      && hs[0] == ("Authorization", "Bearer " + token)
      && (handlerLocale.Some? ==> hs[1] == ("language", LocaleName(handlerLocale.value)))
      && hs[|hs| - |customHeaders|..] == customHeaders
      && (forall i :: 1 <= i < |hs| ==> hs[i].0 == "Authorization" ==> hs[i] in customHeaders)
  {
  }

  /** The headers of a request under construction, in the order they were appended. */
  class HeaderList {
    var entries: seq<Pair>

    constructor ()
      ensures entries == []
    {
      entries := [];
    }

    /** `setupAuthorizationHeader`. */
    method SetupAuthorizationHeader(token: string)
      modifies this
      ensures entries == old(entries) + [AuthorizationHeader(token)]
    {
      entries := entries + [("Authorization", "Bearer " + token)];
    }

    /** `setupLocaleHeader`. */
    method SetupLocaleHeader(locale: string)
      modifies this
      ensures entries == old(entries) + [LocaleHeader(locale)]
    {
      entries := entries + [("language", locale)];
    }

    /** `setupCustomHeaders`: every custom header, in map order. */
    method SetupCustomHeaders(customHeaders: seq<Pair>)
      modifies this
      ensures entries == old(entries) + customHeaders
    {
      for i := 0 to |customHeaders|
        invariant entries == old(entries) + customHeaders[..i]
      {
        assert customHeaders[..i + 1] == customHeaders[..i] + [customHeaders[i]];
        var (key, value) := customHeaders[i];
        entries := entries + [(key, value)];
      }
      assert customHeaders[..|customHeaders|] == customHeaders;
    }

    /**
     * `setupAllHeaders`, with the module's token, its handler's locale (None
     * when there is no handler) and its custom headers passed in.
     */
    method SetupAllHeaders(token: string, handlerLocale: Option<Locale>, customHeaders: seq<Pair>)
      modifies this
      ensures entries == old(entries) + AllHeaders(token, handlerLocale, customHeaders)
    {
      SetupAuthorizationHeader(token);
      if handlerLocale.Some? {
        SetupLocaleHeader(LocaleName(handlerLocale.value));
      }
      SetupCustomHeaders(customHeaders);
    }
  }

  // ---------------------------------------------------------------------
  // MIME types and multipart content

  /** The extensions `detectMimeType` knows. */
  const KnownExtensions: set<string> :=
    {"jpg", "jpeg", "png", "gif", "pdf", "txt", "json", "xml", "doc", "docx", "xls", "xlsx", "mp4", "mp3", "zip"}

  /** The MIME type of a lower-case extension; jpg and jpeg share one, unknown extensions get the generic type. */
  function MimeForExtension(ext: string): (m: string)
    ensures m == "application/octet-stream" <==> ext !in KnownExtensions
    ensures m == "image/jpeg" <==> ext == "jpg" || ext == "jpeg"
  {
    if ext == "jpg" || ext == "jpeg" then "image/jpeg"
    else if ext == "png" then "image/png"
    else if ext == "gif" then "image/gif"
    else if ext == "pdf" then "application/pdf"
    else if ext == "txt" then "text/plain"
    else if ext == "json" then "application/json"
    else if ext == "xml" then "application/xml"
    else if ext == "doc" then "application/msword"
    else if ext == "docx" then "application/vnd.openxmlformats-officedocument.wordprocessingml.document"
    else if ext == "xls" then "application/vnd.ms-excel"
    else if ext == "xlsx" then "application/vnd.openxmlformats-officedocument.spreadsheetml.sheet"
    else if ext == "mp4" then "video/mp4"
    else if ext == "mp3" then "audio/mpeg"
    else if ext == "zip" then "application/zip"
    else "application/octet-stream"
  }

  /**
   * `detectMimeType`: the lower-cased text after the last '.', or the whole
   * name when it has no '.'.
   */
  function DetectMimeType(fileName: string): (m: string)
    ensures '.' !in fileName ==> m == MimeForExtension(Lower(fileName))
  {
    MimeForExtension(Lower(SubstringAfterLast(fileName, '.')))
  }

  /** The case of the name does not matter. */
  lemma DetectMimeTypeIgnoresCase(fileName: string)
    ensures DetectMimeType(Lower(fileName)) == DetectMimeType(fileName)
  {
    AfterLastLower(fileName);
    LowerIdempotent(SubstringAfterLast(fileName, '.'));
  }

  /** Only the last extension counts. */
  lemma DetectMimeTypeLastExtension(base: string, ext: string)
    requires '.' !in ext
    ensures DetectMimeType(base + "." + ext) == MimeForExtension(Lower(ext))
  {
    AfterLastOfSuffix(base, '.', ext);
  }

  lemma LowerJpg()
    ensures Lower("JPG") == "jpg"
  {
    var l := Lower("JPG");
    assert l[0] == 'j' && l[1] == 'p' && l[2] == 'g';
  }

  lemma DetectMimeTypeExamples()
    ensures DetectMimeType("photo.JPG") == "image/jpeg"
  {
    assert "photo.JPG" == "photo" + "." + "JPG";
    DetectMimeTypeLastExtension("photo", "JPG");
    LowerJpg();
  }

  lemma DetectMimeTypeUnknownExample()
    ensures DetectMimeType("archive.tar.gz") == "application/octet-stream"
  {
    assert "archive.tar.gz" == "archive.tar" + "." + "gz";
    DetectMimeTypeLastExtension("archive.tar", "gz");
    var l := Lower("gz");
    assert l[0] == 'g' && l[1] == 'z';
    assert l == "gz";
  }

  /** A part of multipart form data. */
  datatype FormPart =
    | FilePart(key: string, content: seq<bv8>, headers: seq<Pair>)
    | FieldPart(key: string, value: string)

  /** The Content-Disposition of the file part. */
  function FileDisposition(fileFieldName: string, fileName: string): string {
    "form-data; name=\"" + fileFieldName + "\"; filename=\"" + fileName + "\""
  }

  /**
   * `createMultipartContent`: the file part first, with its disposition and
   * its content type (the given one, else the one detected from the file
   * name), then one part per additional field, in order.
   */
  function CreateMultipartContent(
    fileName: string, fileContent: seq<bv8>, fileFieldName: string,
    additionalFields: Option<seq<Pair>>, mimeType: Option<string>): (parts: seq<FormPart>)
    ensures var fields := additionalFields.GetOr([]);
      && |parts| == 1 + |fields|
      && parts[0].FilePart? && parts[0].key == fileFieldName && parts[0].content == fileContent
      && |parts[0].headers| == 2
      && parts[0].headers[0] == ("Content-Disposition", FileDisposition(fileFieldName, fileName))
      && (mimeType.Some? ==> parts[0].headers[1] == ("Content-Type", mimeType.value))
      && (mimeType.None? ==> parts[0].headers[1] == ("Content-Type", DetectMimeType(fileName)))
      && forall i :: 0 <= i < |fields| ==> parts[i + 1] == FieldPart(fields[i].0, fields[i].1)
  {
    var contentType := if mimeType.Some? then mimeType.value else DetectMimeType(fileName);
    var fields := additionalFields.GetOr([]);
    [FilePart(fileFieldName, fileContent,
              [("Content-Disposition", FileDisposition(fileFieldName, fileName)), ("Content-Type", contentType)])]
    + seq(|fields|, i requires 0 <= i < |fields| => FieldPart(fields[i].0, fields[i].1))
  }
}
