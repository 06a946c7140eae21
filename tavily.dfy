/**
 * The Tavily search adapter: its constructor's configuration and API-key
 * check, the choice of the result list in a decoded HTTP response, and the
 * parser that turns result items into `Source` records through chains of
 * `or` fallbacks. The SDK and HTTP calls themselves are not part of this model.
 */
module Tavily {
  import opened Wrappers
  import opened PyValue
  import opened Verification

  /** What the adapter raises: `TavilyError` for a missing key or an unexpected response, `TypeError` from `results[:]`. */
  datatype AdapterError = MissingApiKey | UnexpectedFormat | NotSliceable

  const DefaultBaseUrl := "https://api.tavily.ai"

  const DefaultTimeout := 10

  /** The configured client: its fields never change after the constructor. */
  datatype Client = Client(apiKey: Value, baseUrl: Value, timeout: int)

  /** `os.environ.get(name)`. */
  function EnvGet(env: map<string, string>, name: string): (r: Value)
    ensures r == VNone || r.VStr?
  {
    if name in env then VStr(env[name]) else VNone
  }

  /**
   * `TavilyClient.__init__`: the key is the argument or else `TAVILY_API_KEY`,
   * the base url the argument, else `TAVILY_API_BASE`, else the public
   * endpoint; a falsy key raises.
   */
  function NewClient(apiKey: Value, baseUrl: Value, timeout: int, env: map<string, string>): (r: Result<Client, AdapterError>)
  {
    var key := Or(apiKey, EnvGet(env, "TAVILY_API_KEY"));
    var base := Or(Or(baseUrl, EnvGet(env, "TAVILY_API_BASE")), VStr(DefaultBaseUrl));
    if !Truthy(key) then Err(MissingApiKey) else Ok(Client(key, base, timeout))
  }

  /** The constructor succeeds exactly when some key is given, and then the client holds a truthy key. */
  lemma NewClientKey(apiKey: Value, baseUrl: Value, timeout: int, env: map<string, string>)
    ensures NewClient(apiKey, baseUrl, timeout, env).Ok? <==>
              Truthy(apiKey) || ("TAVILY_API_KEY" in env && env["TAVILY_API_KEY"] != "")
    ensures NewClient(apiKey, baseUrl, timeout, env).Err? ==> NewClient(apiKey, baseUrl, timeout, env).error == MissingApiKey
    ensures NewClient(apiKey, baseUrl, timeout, env).Ok? ==>
              var c := NewClient(apiKey, baseUrl, timeout, env).value;
              Truthy(c.apiKey) && c.apiKey == (if Truthy(apiKey) then apiKey else VStr(env["TAVILY_API_KEY"]))
  {
  }

  /** The base url is the first non-empty of the argument and `TAVILY_API_BASE`, and otherwise the public endpoint. */
  lemma NewClientBase(apiKey: Value, baseUrl: Value, timeout: int, env: map<string, string>)
    requires NewClient(apiKey, baseUrl, timeout, env).Ok?
    ensures Truthy(NewClient(apiKey, baseUrl, timeout, env).value.baseUrl)
    ensures NewClient(apiKey, baseUrl, timeout, env).value.baseUrl ==
              FirstTruthy([baseUrl, EnvGet(env, "TAVILY_API_BASE")], VStr(DefaultBaseUrl))
    ensures !Truthy(baseUrl) && "TAVILY_API_BASE" !in env ==>
              NewClient(apiKey, baseUrl, timeout, env).value.baseUrl == VStr(DefaultBaseUrl)
  {
    OrChain3(baseUrl, EnvGet(env, "TAVILY_API_BASE"), VStr(DefaultBaseUrl));
  }

  // ---------------------------------------------------------------------
  // Choosing the result list (HTTP path)
  // ---------------------------------------------------------------------

  /** `data.get("results") if isinstance(data, dict) else None`, then the top-level-list fallback. */
  function SelectResults(data: Value): (r: Result<Value, AdapterError>)
  {
    var results := if data.VDict? then Get(data.entries, "results") else VNone;
    if results != VNone then Ok(results)
    else if data.VList? then Ok(data)
    else Err(UnexpectedFormat)
  }

  /**
   * A dict with a non-None `results` gives that value, a list gives itself,
   * and everything else raises `TavilyError`.
   */
  lemma SelectResultsShape(data: Value)
    ensures SelectResults(data).Ok? <==> (data.VDict? && Get(data.entries, "results") != VNone) || data.VList?
    ensures SelectResults(data).Ok? && data.VDict? ==> SelectResults(data).value == Get(data.entries, "results")
    ensures SelectResults(data).Ok? && data.VList? ==> SelectResults(data).value == data
    ensures SelectResults(data).Err? ==> SelectResults(data).error == UnexpectedFormat
    ensures SelectResults(data).Ok? ==> SelectResults(data).value != VNone
  {
  }

  // ---------------------------------------------------------------------
  // Parsing result items
  // ---------------------------------------------------------------------

  /** The reference reading of one result item: each field is the first truthy of its keys, else the default. */
  function ParsedSource(entries: seq<(string, Value)>): Source
  {
    Source(FirstTruthy([Get(entries, "title"), Get(entries, "headline"), Get(entries, "name")], VStr("Untitled")),
           FirstTruthy([Get(entries, "url"), Get(entries, "link")], Get(entries, "uri")),
           FirstTruthy([Get(entries, "snippet"), Get(entries, "summary"), Get(entries, "excerpt")], VStr("")),
           FirstTruthy([Get(entries, "published"), Get(entries, "published_at")], Get(entries, "date")),
           VDict(entries))
  }

  /** The sources parsed from `items`: one per dict item, in order; the rest are skipped. */
  function ParsedAll(items: seq<Value>): seq<Source>
  {
    if items == [] then []
    else
      var last := items[|items| - 1];
      ParsedAll(items[..|items| - 1]) + (if last.VDict? then [ParsedSource(last.entries)] else [])
  }

  /** The dict items of `items`, in order. */
  function DictItems(items: seq<Value>): (r: seq<Value>)
    ensures forall v :: v in r ==> v.VDict? && v in items
  {
    if items == [] then []
    else
      var last := items[|items| - 1];
      DictItems(items[..|items| - 1]) + (if last.VDict? then [last] else [])
  }

  /** The characters of a string are strings, never dicts. */
  function Chars(s: string): (r: seq<Value>)
    ensures |r| == |s|
    ensures forall v :: v in r ==> v.VStr?
  {
    seq(|s|, k requires 0 <= k < |s| => VStr([s[k]]))
  }

  /**
   * `_parse_results(results)`: `results[:]` copies a list and splits a string
   * into characters (none of which is a dict); any other value raises `TypeError`.
   */
  function ParseResults(results: Value): Result<seq<Source>, AdapterError>
  {
    match results
    case VList(items) => Ok(ParsedAll(items))
    case VStr(s) => Ok(ParsedAll(Chars(s)))
    case _ => Err(NotSliceable)
  }

  /** The `or` chains of the loop body compute the reference fields. */
  method ParseItem(entries: seq<(string, Value)>) returns (src: Source)
    ensures src == ParsedSource(entries)
  {
    var title := Or(Or(Or(Get(entries, "title"), Get(entries, "headline")), Get(entries, "name")), VStr("Untitled"));
    var url := Or(Or(Get(entries, "url"), Get(entries, "link")), Get(entries, "uri"));
    var snippet := Or(Or(Or(Get(entries, "snippet"), Get(entries, "summary")), Get(entries, "excerpt")), VStr(""));
    var published := Or(Or(Get(entries, "published"), Get(entries, "published_at")), Get(entries, "date"));
    OrChain(Get(entries, "title"), Get(entries, "headline"), Get(entries, "name"), VStr("Untitled"));
    OrChain3(Get(entries, "url"), Get(entries, "link"), Get(entries, "uri"));
    OrChain(Get(entries, "snippet"), Get(entries, "summary"), Get(entries, "excerpt"), VStr(""));
    OrChain3(Get(entries, "published"), Get(entries, "published_at"), Get(entries, "date"));
    src := Source(title, url, snippet, published, VDict(entries));
  }

  /** The loop of `_parse_results` over a sliceable `results`. */
  method ParseItems(items: seq<Value>) returns (out: seq<Source>)
    ensures out == ParsedAll(items)
  {
    out := [];
    var i := 0;
    while i < |items|
      invariant 0 <= i <= |items|
      invariant out == ParsedAll(items[..i])
    {
      assert items[..i + 1][..i] == items[..i];
      if items[i].VDict? {
        var src := ParseItem(items[i].entries);
        out := out + [src];
      }
      i := i + 1;
    }
    assert items[..i] == items;
  }

  /** `TavilyClient._parse_results`. */
  method ParseResultsOf(results: Value) returns (r: Result<seq<Source>, AdapterError>)
    ensures r == ParseResults(results)
  {
    match results {
      case VList(items) =>
        var out := ParseItems(items);
        r := Ok(out);
      case VStr(s) =>
        var out := ParseItems(Chars(s));
        r := Ok(out);
      case _ =>
        r := Err(NotSliceable);
    }
  }

  /** The HTTP path after decoding: choose the result list, then parse it. */
  method HandleResponse(data: Value) returns (r: Result<seq<Source>, AdapterError>)
    ensures SelectResults(data).Err? ==> r == Err(UnexpectedFormat)
    ensures SelectResults(data).Ok? ==> r == ParseResults(SelectResults(data).value)
  {
    var results := SelectResults(data);
    if results.Err? {
      r := Err(results.error);
    } else {
      r := ParseResultsOf(results.value);
    }
  }

  // ---------------------------------------------------------------------
  // Properties of the parser
  // ---------------------------------------------------------------------

  /**
   * One source per dict item, in input order: the `j`-th source is the
   * reference reading of the `j`-th dict item and carries it as metadata.
   */
  lemma {:induction false} ParsedItems(items: seq<Value>)
    ensures |ParsedAll(items)| == |DictItems(items)|
    ensures forall j :: 0 <= j < |ParsedAll(items)| ==>
              ParsedAll(items)[j].metadata == DictItems(items)[j] &&
              ParsedAll(items)[j] == ParsedSource(DictItems(items)[j].entries)
  {
    if items != [] {
      ParsedItems(items[..|items| - 1]);
    }
  }

  /** A string result list yields no sources. */
  lemma StringResultsEmpty(s: string)
    ensures ParseResults(VStr(s)) == Ok([])
  {
    NoDictsParseEmpty(Chars(s));
  }

  /** Items none of which is a dict yield no sources. */
  lemma {:induction false} NoDictsParseEmpty(items: seq<Value>)
    requires forall v :: v in items ==> !v.VDict?
    ensures ParsedAll(items) == []
  {
    if items != [] {
      assert items[|items| - 1] in items;
      NoDictsParseEmpty(items[..|items| - 1]);
    }
  }

  /** Every parsed title is truthy: a missing title becomes "Untitled". */
  lemma ParsedTitle(entries: seq<(string, Value)>)
    ensures Truthy(ParsedSource(entries).title)
    ensures !Truthy(Get(entries, "title")) && !Truthy(Get(entries, "headline")) && !Truthy(Get(entries, "name")) ==>
              ParsedSource(entries).title == VStr("Untitled")
  {
  }

  /** The url is truthy exactly when one of `url`, `link`, `uri` is, and is None when all three are absent. */
  lemma ParsedUrl(entries: seq<(string, Value)>)
    ensures Truthy(ParsedSource(entries).url) <==>
              Truthy(Get(entries, "url")) || Truthy(Get(entries, "link")) || Truthy(Get(entries, "uri"))
    ensures Get(entries, "url") == VNone && Get(entries, "link") == VNone && Get(entries, "uri") == VNone ==>
              ParsedSource(entries).url == VNone
  {
    OrChain3(Get(entries, "url"), Get(entries, "link"), Get(entries, "uri"));
  }

  /** A string or None. */
  predicate TextOrNone(v: Value)
  {
    v.VStr? || v.VNone?
  }

  /** A result item whose url and snippet keys hold only strings or None. */
  predicate TextFields(entries: seq<(string, Value)>)
  {
    && TextOrNone(Get(entries, "url")) && TextOrNone(Get(entries, "link")) && TextOrNone(Get(entries, "uri"))
    && TextOrNone(Get(entries, "snippet")) && TextOrNone(Get(entries, "summary")) && TextOrNone(Get(entries, "excerpt"))
  }

  /** An item with textual url and snippet fields parses into a source `verify_facts` accepts. */
  lemma ItemWellTyped(entries: seq<(string, Value)>)
    requires TextFields(entries)
    ensures WellTyped(ParsedSource(entries))
  {
  }

  /** Items with textual url and snippet fields parse into sources `verify_facts` accepts. */
  lemma ParsedWellTyped(items: seq<Value>)
    requires forall v :: v in items && v.VDict? ==> TextFields(v.entries)
    ensures AllWellTyped(ParsedAll(items))
  {
    ParsedItems(items);
    forall s | s in ParsedAll(items)
      ensures WellTyped(s)
    {
      var j :| 0 <= j < |ParsedAll(items)| && ParsedAll(items)[j] == s;
      ItemWellTyped(DictItems(items)[j].entries);
    }
  }
}
