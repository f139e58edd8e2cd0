/**
 * The HTTP handlers of the category service: request-body validation, the
 * fixed order of checks (query text, then platform, then lazy load, then
 * search) and the status each outcome is answered with.
 *
 * The per-platform index registry the handlers call is seen only through its
 * call sites: which platforms are resident (what `isIndexLoaded` and
 * `getLoadedIndexes` report) and the record of the calls made on it. Whether a
 * load, build, search or delete throws is an oracle argument of the handler.
 */
module Resolvers {
  import opened Text
  import VectorIndex

  // ---- JSON request bodies ------------------------------------------------

  /** A JavaScript value taken from a parsed JSON request body; `Obj` is a plain object. */
  datatype JsValue = Undefined | Null | Bool(b: bool) | Num(n: int) | Str(s: string) | Obj

  /** The fields the handlers destructure from `req.body`; an absent field is `Undefined`. */
  datatype Body = Body(text: JsValue, platform: JsValue, k: JsValue)

  const DefaultPlatform: string := "shopify"
  const DefaultK: int := 5

  /** A destructuring default: it replaces `undefined` only, not `null` or any other value. */
  function OrDefault(v: JsValue, d: JsValue): (r: JsValue)
    ensures v.Undefined? ==> r == d
    ensures !v.Undefined? ==> r == v
  {
    if v.Undefined? then d else v
  }

  /** The `platform` a handler works with. */
  function PlatformOf(body: Body): JsValue {
    OrDefault(body.platform, Str(DefaultPlatform))
  }

  /** The query text passes `!text || typeof text !== 'string'` unrejected. */
  predicate IsQueryText(v: JsValue) {
    v.Str? && v.s != ""
  }

  /** `String(v)`, as a template literal renders the value. */
  function Show(v: JsValue): string {
    match v
    case Undefined => "undefined"
    case Null => "null"
    case Bool(b) => if b then "true" else "false"
    case Num(n) => IntToString(n)
    case Str(s) => s
    case Obj => "[object Object]"
  }

  // ---- Number(k) ----------------------------------------------------------

  /** A JavaScript number restricted to integers, or `NaN`. */
  datatype Numeric = Finite(value: int) | NaN

  /**
   * `Number(s)` for a string: surrounding whitespace is ignored, an empty
   * string is 0, and otherwise the text must be one optional sign followed
   * by decimal digits only.
   */
  function StringToNumber(s: string): Numeric {
    var t := Trim(s);
    var ds := SkipSign(t);
    if t == [] then Finite(0)
    else if ds != [] && forall i :: 0 <= i < |ds| ==> IsDigit(ds[i]) then
      var v: int := DigitsValue(ds);
      Finite(if t[0] == '-' then -v else v)
    else NaN
  }

  /** `Number(v)`. */
  function NumberOf(v: JsValue): Numeric {
    match v
    case Undefined => NaN
    case Null => Finite(0)
    case Bool(b) => Finite(if b then 1 else 0)
    case Num(n) => Finite(n)
    case Str(s) => StringToNumber(s)
    case Obj => NaN
  }

  /** `Number(String(i)) === i`: a `k` sent as decimal text is the number it spells. */
  lemma NumberOfDecimal(i: int)
    ensures NumberOf(Str(IntToString(i))) == Finite(i)
  {
    var s := IntToString(i);
    var n: nat := if i < 0 then -i else i;
    var digits := NatToString(n);
    assert s[|s| - 1] == digits[|digits| - 1];
    assert IsTrimmed(s);
    TrimmedIsFixed(s);
    assert SkipSign(s) == digits;
    NatToStringValue(n);
  }

  /** A blank `k` string counts as 0, not as `NaN`. */
  lemma NumberOfBlank(s: string)
    requires AllSpace(s)
    ensures NumberOf(Str(s)) == Finite(0)
  {
    TrimEmpty(s);
  }

  // ---- Platform validation -------------------------------------------------

  /** `list.includes(v)`: some element is the string `v` (SameValueZero never equates a string with a non-string). */
  function Includes(list: seq<string>, v: JsValue): (b: bool)
    ensures b ==> v.Str?
  {
    if list == [] then false else v == Str(list[0]) || Includes(list[1..], v)
  }

  /** `validatePlatform`: membership in the supported platforms. */
  function ValidatePlatform(supported: seq<string>, v: JsValue): bool {
    Includes(supported, v)
  }

  /** A platform is valid exactly when it is one of the supported platform strings. */
  lemma {:induction false} ValidatePlatformIff(supported: seq<string>, v: JsValue)
    ensures ValidatePlatform(supported, v) <==> exists i :: 0 <= i < |supported| && v == Str(supported[i])
    decreases |supported|
  {
    if supported != [] {
      ValidatePlatformIff(supported[1..], v);
      if ValidatePlatform(supported[1..], v) {
        var i :| 0 <= i < |supported[1..]| && v == Str(supported[1..][i]);
        assert v == Str(supported[i + 1]);
      }
      if exists i :: 0 <= i < |supported| && v == Str(supported[i]) {
        var i :| 0 <= i < |supported| && v == Str(supported[i]);
        if i > 0 {
          assert v == Str(supported[1..][i - 1]);
        }
      }
    }
  }

  // ---- Replies -------------------------------------------------------------

  const TextRequired: string := "text 字段必填且必须为字符串"
  const InternalError: string := "内部错误"
  const BuildFailed: string := "索引构建失败"
  const LoadFailed: string := "索引加载失败"
  const DeleteFailed: string := "索引删除失败"

  /** `parts.join(sep)`. */
  function JoinWith(parts: seq<string>, sep: string): string
    decreases |parts|
  {
    if |parts| == 0 then ""
    else if |parts| == 1 then parts[0]
    else parts[0] + sep + JoinWith(parts[1..], sep)
  }

  function Unsupported(platform: JsValue, supported: seq<string>): string {
    "不支持的平台: " + Show(platform) + "，支持: " + JoinWith(supported, ", ")
  }

  function NotLoadedMessage(p: string): string {
    "索引未加载: " + p + "，请先构建索引"
  }

  /** `error.message || fallback`: an empty or missing message gives the fallback. */
  function MessageOr(message: string, fallback: string): string {
    if message == "" then fallback else message
  }

  /** The JSON a handler answers with; every `Error` body carries `success: false`, the others `success: true`. */
  datatype Payload =
    | Found(platform: string, topK: seq<VectorIndex.SearchResult>)
    | Message(platform: string, message: string)
    | Error(error: string)

  datatype Reply = Reply(status: int, payload: Payload)

  predicate Succeeded(r: Reply) {
    !r.payload.Error?
  }

  // ---- The registry ----------------------------------------------------------

  /** A call the handlers make on the registry. */
  datatype Call =
    | IsLoaded(platform: string)
    | Load(platform: string)
    | Build(path: string, platform: string)
    | Search(text: string, platform: string, k: Numeric)
    | Delete(platform: string)

  /** Whether an awaited registry call returns or throws an error with this message. */
  datatype Attempt = Succeeds | Throws(message: string)

  /** What `searchTopK` does: return the top-K list or throw. */
  datatype SearchAnswer = TopK(results: seq<VectorIndex.SearchResult>) | SearchThrows(message: string)

  /** The resident platforms and every call made so far, oldest first. */
  datatype RegistryState = RegistryState(loaded: set<string>, trace: seq<Call>)

  /**
   * The registry after call `c` with outcome `a`: a call that throws changes
   * nothing but the record; a load or build that returns makes its platform
   * resident, a delete that returns makes it absent.
   */
  function Perform(r: RegistryState, c: Call, a: Attempt): (r': RegistryState)
    ensures r'.trace == r.trace + [c]
    ensures a.Throws? || c.IsLoaded? || c.Search? ==> r'.loaded == r.loaded
  {
    var loaded :=
      if a.Throws? then r.loaded
      else match c
        case Load(p) => r.loaded + {p}
        case Build(_, p) => r.loaded + {p}
        case Delete(p) => r.loaded - {p}
        case _ => r.loaded;
    RegistryState(loaded, r.trace + [c])
  }

  /** The registry the handlers share; `supported` and `tsvPath` are its fixed platform list and file locations. */
  class Registry {
    const supported: seq<string>
    const tsvPath: string -> string
    var loaded: set<string>
    var trace: seq<Call>

    constructor (supported: seq<string>, tsvPath: string -> string)
      ensures this.supported == supported && this.tsvPath == tsvPath
      ensures loaded == {} && trace == []
    {
      this.supported := supported;
      this.tsvPath := tsvPath;
      loaded := {};
      trace := [];
    }

    function State(): RegistryState
      reads this
    {
      RegistryState(loaded, trace)
    }

    method IsIndexLoaded(platform: string) returns (resident: bool)
      modifies this
      ensures resident == (platform in old(loaded))
      ensures State() == Perform(old(State()), IsLoaded(platform), Succeeds)
    {
      resident := platform in loaded;
      trace := trace + [IsLoaded(platform)];
    }

    method LoadIndex(platform: string, outcome: Attempt)
      modifies this
      ensures State() == Perform(old(State()), Load(platform), outcome)
    {
      if outcome.Succeeds? {
        loaded := loaded + {platform};
      }
      trace := trace + [Load(platform)];
    }

    method BuildIndexFromTsv(path: string, platform: string, outcome: Attempt)
      modifies this
      ensures State() == Perform(old(State()), Build(path, platform), outcome)
    {
      if outcome.Succeeds? {
        loaded := loaded + {platform};
      }
      trace := trace + [Build(path, platform)];
    }

    method SearchTopK(text: string, platform: string, k: Numeric)
      modifies this
      ensures State() == Perform(old(State()), Search(text, platform, k), Succeeds)
    {
      trace := trace + [Search(text, platform, k)];
    }

    method DeleteIndex(platform: string, outcome: Attempt)
      modifies this
      ensures State() == Perform(old(State()), Delete(platform), outcome)
    {
      if outcome.Succeeds? {
        loaded := loaded - {platform};
      }
      trace := trace + [Delete(platform)];
    }
  }

  // ---- What each handler does -------------------------------------------------

  datatype Handled = Handled(after: RegistryState, reply: Reply)

  /** `queryCategory`. */
  function QueryOutcome(supported: seq<string>, r: RegistryState, body: Body, load: Attempt, search: SearchAnswer): Handled {
    var platform := PlatformOf(body);
    if !IsQueryText(body.text) then Handled(r, Reply(400, Error(TextRequired)))
    else if !ValidatePlatform(supported, platform) then Handled(r, Reply(400, Error(Unsupported(platform, supported))))
    else
      var p := platform.s;
      var r1 := Perform(r, IsLoaded(p), Succeeds);
      var r2 := if p in r.loaded then r1 else Perform(r1, Load(p), load);
      if p !in r.loaded && load.Throws? then Handled(r2, Reply(503, Error(NotLoadedMessage(p))))
      else
        var r3 := Perform(r2, Search(body.text.s, p, NumberOf(OrDefault(body.k, Num(DefaultK)))), Succeeds);
        match search
        case TopK(results) => Handled(r3, Reply(200, Found(p, results)))
        case SearchThrows(m) => Handled(r3, Reply(500, Error(MessageOr(m, InternalError))))
  }

  /** `buildIndex`. */
  function BuildOutcome(supported: seq<string>, tsvPath: string -> string, r: RegistryState, body: Body, build: Attempt): Handled {
    var platform := PlatformOf(body);
    if !ValidatePlatform(supported, platform) then Handled(r, Reply(400, Error(Unsupported(platform, supported))))
    else
      var p := platform.s;
      var r1 := Perform(r, Build(tsvPath(p), p), build);
      match build
      case Succeeds => Handled(r1, Reply(200, Message(p, "索引构建完成: " + p)))
      case Throws(m) => Handled(r1, Reply(500, Error(MessageOr(m, BuildFailed))))
  }

  /** `loadCategoryIndex`. */
  function LoadOutcome(supported: seq<string>, r: RegistryState, body: Body, load: Attempt): Handled {
    var platform := PlatformOf(body);
    if !ValidatePlatform(supported, platform) then Handled(r, Reply(400, Error(Unsupported(platform, supported))))
    else
      var p := platform.s;
      var r1 := Perform(r, Load(p), load);
      match load
      case Succeeds => Handled(r1, Reply(200, Message(p, "索引加载完成: " + p)))
      case Throws(m) => Handled(r1, Reply(500, Error(MessageOr(m, LoadFailed))))
  }

  /** `deleteCategoryIndex`. */
  function DeleteOutcome(supported: seq<string>, r: RegistryState, body: Body, delete: Attempt): Handled {
    var platform := PlatformOf(body);
    if !ValidatePlatform(supported, platform) then Handled(r, Reply(400, Error(Unsupported(platform, supported))))
    else
      var p := platform.s;
      var r1 := Perform(r, Delete(p), delete);
      match delete
      case Succeeds => Handled(r1, Reply(200, Message(p, "索引已删除: " + p)))
      case Throws(m) => Handled(r1, Reply(500, Error(MessageOr(m, DeleteFailed))))
  }

  /** The `/health` answer. */
  datatype Health = Health(status: string, supportedPlatforms: seq<string>, loadedIndexes: set<string>)

  function HealthCheck(supported: seq<string>, r: RegistryState): (h: Health)
    ensures h.status == "ok" && h.supportedPlatforms == supported
    ensures forall p :: p in h.loadedIndexes <==> p in r.loaded
  {
    Health("ok", supported, r.loaded)
  }

  // ---- The handlers ---------------------------------------------------------------

  method QueryCategory(registry: Registry, body: Body, load: Attempt, search: SearchAnswer) returns (reply: Reply)
    modifies registry
    ensures Handled(registry.State(), reply) == QueryOutcome(registry.supported, old(registry.State()), body, load, search)
  {
    var platform := PlatformOf(body);
    var k := OrDefault(body.k, Num(DefaultK));
    if !IsQueryText(body.text) {
      return Reply(400, Error(TextRequired));
    }
    if !ValidatePlatform(registry.supported, platform) {
      return Reply(400, Error(Unsupported(platform, registry.supported)));
    }
    var p := platform.s;
    var resident := registry.IsIndexLoaded(p);
    if !resident {
      registry.LoadIndex(p, load);
      if load.Throws? {
        return Reply(503, Error(NotLoadedMessage(p)));
      }
    }
    registry.SearchTopK(body.text.s, p, NumberOf(k));
    match search
    case TopK(results) =>
      reply := Reply(200, Found(p, results));
    case SearchThrows(m) =>
      reply := Reply(500, Error(MessageOr(m, InternalError)));
  }

  method BuildIndex(registry: Registry, body: Body, build: Attempt) returns (reply: Reply)
    modifies registry
    ensures Handled(registry.State(), reply) == BuildOutcome(registry.supported, registry.tsvPath, old(registry.State()), body, build)
  {
    var platform := PlatformOf(body);
    if !ValidatePlatform(registry.supported, platform) {
      return Reply(400, Error(Unsupported(platform, registry.supported)));
    }
    var p := platform.s;
    var filePath := registry.tsvPath(p);
    registry.BuildIndexFromTsv(filePath, p, build);
    match build
    case Succeeds =>
      reply := Reply(200, Message(p, "索引构建完成: " + p));
    case Throws(m) =>
      reply := Reply(500, Error(MessageOr(m, BuildFailed)));
  }

  method LoadCategoryIndex(registry: Registry, body: Body, load: Attempt) returns (reply: Reply)
    modifies registry
    ensures Handled(registry.State(), reply) == LoadOutcome(registry.supported, old(registry.State()), body, load)
  {
    var platform := PlatformOf(body);
    if !ValidatePlatform(registry.supported, platform) {
      return Reply(400, Error(Unsupported(platform, registry.supported)));
    }
    var p := platform.s;
    registry.LoadIndex(p, load);
    match load
    case Succeeds =>
      reply := Reply(200, Message(p, "索引加载完成: " + p));
    case Throws(m) =>
      reply := Reply(500, Error(MessageOr(m, LoadFailed)));
  }

  method DeleteCategoryIndex(registry: Registry, body: Body, delete: Attempt) returns (reply: Reply)
    modifies registry
    ensures Handled(registry.State(), reply) == DeleteOutcome(registry.supported, old(registry.State()), body, delete)
  {
    var platform := PlatformOf(body);
    if !ValidatePlatform(registry.supported, platform) {
      return Reply(400, Error(Unsupported(platform, registry.supported)));
    }
    var p := platform.s;
    registry.DeleteIndex(p, delete);
    match delete
    case Succeeds =>
      reply := Reply(200, Message(p, "索引已删除: " + p));
    case Throws(m) =>
      reply := Reply(500, Error(MessageOr(m, DeleteFailed)));
  }

  // ---- Properties ------------------------------------------------------------------

  /** The calls a handler added to the record, given that it only appended. */
  function NewCalls(r: RegistryState, h: Handled): seq<Call>
    requires |r.trace| <= |h.after.trace|
  {
    h.after.trace[|r.trace|..]
  }

  /** The number of `Load` calls in `calls`. */
  function Loads(calls: seq<Call>): nat {
    if calls == [] then 0 else (if calls[0].Load? then 1 else 0) + Loads(calls[1..])
  }

  predicate HasSearch(calls: seq<Call>) {
    exists i :: 0 <= i < |calls| && calls[i].Search?
  }

  /**
   * A missing, empty or non-string `text` is answered 400 before the platform
   * is looked at and before the registry is called.
   */
  lemma TextCheckedFirst(supported: seq<string>, r: RegistryState, body: Body, load: Attempt, search: SearchAnswer)
    requires !IsQueryText(body.text)
    ensures QueryOutcome(supported, r, body, load, search) == Handled(r, Reply(400, Error(TextRequired)))
  {
  }

  /** An unsupported platform is answered 400 by every handler, before any registry call. */
  lemma UnsupportedRejected(supported: seq<string>, tsvPath: string -> string, r: RegistryState, body: Body, a: Attempt, search: SearchAnswer)
    requires !ValidatePlatform(supported, PlatformOf(body))
    ensures var reply := Reply(400, Error(Unsupported(PlatformOf(body), supported)));
      && (IsQueryText(body.text) ==> QueryOutcome(supported, r, body, a, search) == Handled(r, reply))
      && BuildOutcome(supported, tsvPath, r, body, a) == Handled(r, reply)
      && LoadOutcome(supported, r, body, a) == Handled(r, reply)
      && DeleteOutcome(supported, r, body, a) == Handled(r, reply)
  {
  }

  /** A `null` platform is not defaulted and is rejected, while an absent one becomes `shopify`. */
  lemma NullPlatformRejected(supported: seq<string>, body: Body)
    requires body.platform == Null
    ensures !ValidatePlatform(supported, PlatformOf(body))
  {
    ValidatePlatformIff(supported, PlatformOf(body));
  }

  /**
   * A query that passes validation asks whether the index is resident, then
   * attempts exactly one load if it is not, and none if it is.
   */
  lemma OneLoadAttempt(supported: seq<string>, r: RegistryState, body: Body, load: Attempt, search: SearchAnswer)
    requires IsQueryText(body.text) && ValidatePlatform(supported, PlatformOf(body))
    ensures var h := QueryOutcome(supported, r, body, load, search);
      && |r.trace| < |h.after.trace|
      && h.after.trace[..|r.trace|] == r.trace
      && NewCalls(r, h)[0] == IsLoaded(PlatformOf(body).s)
      && Loads(NewCalls(r, h)) == (if PlatformOf(body).s in r.loaded then 0 else 1)
  {
    var h := QueryOutcome(supported, r, body, load, search);
    var p := PlatformOf(body).s;
    var c := NewCalls(r, h);
    var search' := Search(body.text.s, p, NumberOf(OrDefault(body.k, Num(DefaultK))));
    if p in r.loaded {
      assert c == [IsLoaded(p)] + [search'];
      LoadsCons(IsLoaded(p), [search']);
      LoadsCons(search', []);
    } else if load.Throws? {
      assert c == [IsLoaded(p)] + [Load(p)];
      LoadsCons(IsLoaded(p), [Load(p)]);
      LoadsCons(Load(p), []);
    } else {
      assert c == [IsLoaded(p)] + ([Load(p)] + [search']);
      LoadsCons(IsLoaded(p), [Load(p)] + [search']);
      LoadsCons(Load(p), [search']);
      LoadsCons(search', []);
    }
  }

  lemma LoadsCons(c: Call, rest: seq<Call>)
    ensures Loads([c] + rest) == (if c.Load? then 1 else 0) + Loads(rest)
  {
    assert ([c] + rest)[1..] == rest;
  }

  /** A failed lazy load is answered 503, with no search and the registry unchanged but for the two calls. */
  lemma LoadFailureUnavailable(supported: seq<string>, r: RegistryState, body: Body, load: Attempt, search: SearchAnswer)
    requires IsQueryText(body.text) && ValidatePlatform(supported, PlatformOf(body))
    requires PlatformOf(body).s !in r.loaded && load.Throws?
    ensures var h := QueryOutcome(supported, r, body, load, search);
      && h.reply == Reply(503, Error(NotLoadedMessage(PlatformOf(body).s)))
      && h.after.loaded == r.loaded
      && |r.trace| <= |h.after.trace| && !HasSearch(NewCalls(r, h))
  {
    var h := QueryOutcome(supported, r, body, load, search);
    var p := PlatformOf(body).s;
    assert NewCalls(r, h) == [IsLoaded(p), Load(p)];
  }

  /** Every search a query issues goes to a platform that is resident when it is issued. */
  lemma SearchOnResidentIndex(supported: seq<string>, r: RegistryState, body: Body, load: Attempt, search: SearchAnswer)
    requires IsQueryText(body.text) && ValidatePlatform(supported, PlatformOf(body))
    ensures var h := QueryOutcome(supported, r, body, load, search);
      && |r.trace| <= |h.after.trace|
      && (HasSearch(NewCalls(r, h)) ==> PlatformOf(body).s in h.after.loaded && h.after.trace[|h.after.trace| - 1].Search?)
  {
    var h := QueryOutcome(supported, r, body, load, search);
    var p := PlatformOf(body).s;
    var search' := Search(body.text.s, p, NumberOf(OrDefault(body.k, Num(DefaultK))));
    if p in r.loaded {
      assert NewCalls(r, h) == [IsLoaded(p), search'];
    } else if load.Throws? {
      assert NewCalls(r, h) == [IsLoaded(p), Load(p)];
    } else {
      assert NewCalls(r, h) == [IsLoaded(p), Load(p), search'];
    }
  }

  /**
   * A query succeeds exactly when the text and platform are valid, the index
   * is resident or loads, and the search returns; the answer is then that
   * search's list, for that platform.
   */
  lemma QuerySucceedsIff(supported: seq<string>, r: RegistryState, body: Body, load: Attempt, search: SearchAnswer)
    ensures var h := QueryOutcome(supported, r, body, load, search);
      && (Succeeded(h.reply) <==>
            IsQueryText(body.text) && ValidatePlatform(supported, PlatformOf(body))
            && (PlatformOf(body).s in r.loaded || load.Succeeds?) && search.TopK?)
      && (Succeeded(h.reply) ==> h.reply == Reply(200, Found(PlatformOf(body).s, search.results)))
  {
  }

  /**
   * The statuses a query can end with: 400 for a bad request, 503 only for a
   * failed lazy load, 500 only for a search that throws, with its message or
   * the fallback, and 200 otherwise.
   */
  lemma QueryStatuses(supported: seq<string>, r: RegistryState, body: Body, load: Attempt, search: SearchAnswer)
    ensures var h := QueryOutcome(supported, r, body, load, search);
      var valid := IsQueryText(body.text) && ValidatePlatform(supported, PlatformOf(body));
      var loads := valid && (PlatformOf(body).s in r.loaded || load.Succeeds?);
      && h.reply.status in {200, 400, 500, 503}
      && (h.reply.status == 400 <==> !valid)
      && (h.reply.status == 503 <==> valid && !loads)
      && (h.reply.status == 500 <==> loads && search.SearchThrows?)
      && (h.reply.status == 500 ==> h.reply.payload == Error(MessageOr(search.message, InternalError)))
  {
  }

  /**
   * With no `platform` and no `k` in the body, a query searches `shopify`
   * for 5 results.
   */
  lemma QueryDefaults(supported: seq<string>, r: RegistryState, body: Body, load: Attempt, search: SearchAnswer)
    requires IsQueryText(body.text) && body.platform == Undefined && body.k == Undefined
    requires DefaultPlatform in supported
    requires DefaultPlatform in r.loaded || load.Succeeds?
    ensures var h := QueryOutcome(supported, r, body, load, search);
      && h.after.trace != []
      && h.after.trace[|h.after.trace| - 1] == Search(body.text.s, "shopify", Finite(5))
  {
    var i :| 0 <= i < |supported| && supported[i] == DefaultPlatform;
    ValidatePlatformIff(supported, PlatformOf(body));
  }

  /**
   * A build of a supported platform reads that platform's TSV path once; it
   * answers 200 and makes the platform resident when the build returns, and
   * 500 with the registry unchanged when it throws.
   */
  lemma BuildResults(supported: seq<string>, tsvPath: string -> string, r: RegistryState, body: Body, build: Attempt)
    requires ValidatePlatform(supported, PlatformOf(body))
    ensures var p := PlatformOf(body).s;
      var h := BuildOutcome(supported, tsvPath, r, body, build);
      && h.after.trace == r.trace + [Build(tsvPath(p), p)]
      && (Succeeded(h.reply) <==> build.Succeeds?)
      && (build.Succeeds? ==> h.reply.status == 200 && p in h.after.loaded)
      && (build.Throws? ==> h.reply == Reply(500, Error(MessageOr(build.message, BuildFailed))) && h.after.loaded == r.loaded)
  {
  }

  /**
   * The load endpoint always calls the registry's load, resident or not, and
   * a load that throws is a 500 like any other error, not a 404 or a 503.
   */
  lemma LoadResults(supported: seq<string>, r: RegistryState, body: Body, load: Attempt)
    requires ValidatePlatform(supported, PlatformOf(body))
    ensures var p := PlatformOf(body).s;
      var h := LoadOutcome(supported, r, body, load);
      && h.after.trace == r.trace + [Load(p)]
      && (Succeeded(h.reply) <==> load.Succeeds?)
      && (load.Succeeds? ==> h.reply.status == 200 && p in h.after.loaded)
      && (load.Throws? ==> h.reply == Reply(500, Error(MessageOr(load.message, LoadFailed))))
  {
  }

  /** With a supported platform, a delete succeeds unless the registry's delete throws, and then the platform is gone. */
  lemma DeleteResults(supported: seq<string>, r: RegistryState, body: Body, delete: Attempt)
    requires ValidatePlatform(supported, PlatformOf(body))
    ensures var p := PlatformOf(body).s;
      var h := DeleteOutcome(supported, r, body, delete);
      && h.after.trace == r.trace + [Delete(p)]
      && (Succeeded(h.reply) <==> delete.Succeeds?)
      && (delete.Succeeds? ==> h.reply.status == 200 && p !in h.after.loaded)
      && (delete.Throws? ==> h.reply == Reply(500, Error(MessageOr(delete.message, DeleteFailed))))
  {
  }

  /** After a successful load request, a query on the same platform loads nothing and reaches the search. */
  lemma QueryAfterLoad(supported: seq<string>, r: RegistryState, body: Body, load: Attempt, load': Attempt, search: SearchAnswer)
    requires IsQueryText(body.text) && ValidatePlatform(supported, PlatformOf(body))
    requires load.Succeeds?
    ensures var r1 := LoadOutcome(supported, r, body, load).after;
      var h := QueryOutcome(supported, r1, body, load', search);
      && |r1.trace| <= |h.after.trace|
      && Loads(NewCalls(r1, h)) == 0 && h.after.trace[|h.after.trace| - 1].Search?
  {
    var r1 := LoadOutcome(supported, r, body, load).after;
    OneLoadAttempt(supported, r1, body, load', search);
    SearchOnResidentIndex(supported, r1, body, load', search);
    var h := QueryOutcome(supported, r1, body, load', search);
    var p := PlatformOf(body).s;
    assert NewCalls(r1, h) == [IsLoaded(p), Search(body.text.s, p, NumberOf(OrDefault(body.k, Num(DefaultK))))];
  }

  /** After a successful delete request, a query on the same platform attempts a load again. */
  lemma QueryAfterDelete(supported: seq<string>, r: RegistryState, body: Body, delete: Attempt, load: Attempt, search: SearchAnswer)
    requires IsQueryText(body.text) && ValidatePlatform(supported, PlatformOf(body))
    requires delete.Succeeds?
    ensures var r1 := DeleteOutcome(supported, r, body, delete).after;
      var h := QueryOutcome(supported, r1, body, load, search);
      |r1.trace| <= |h.after.trace| && Loads(NewCalls(r1, h)) == 1
  {
    var r1 := DeleteOutcome(supported, r, body, delete).after;
    OneLoadAttempt(supported, r1, body, load, search);
  }

  /** `/health` lists a platform as loaded after it is built and not after it is deleted. */
  lemma HealthFollowsRegistry(supported: seq<string>, tsvPath: string -> string, r: RegistryState, body: Body, a: Attempt)
    requires ValidatePlatform(supported, PlatformOf(body)) && a.Succeeds?
    ensures var p := PlatformOf(body).s;
      && p in HealthCheck(supported, BuildOutcome(supported, tsvPath, r, body, a).after).loadedIndexes
      && p !in HealthCheck(supported, DeleteOutcome(supported, r, body, a).after).loadedIndexes
      && HealthCheck(supported, r).supportedPlatforms == supported
  {
  }

  /**
   * A build or delete request changes what `/health` lists as loaded at most
   * for the platform it names; a request that is rejected or throws leaves
   * the `/health` answer as it was.
   */
  lemma HealthChangesOnePlatform(supported: seq<string>, tsvPath: string -> string, r: RegistryState, body: Body, a: Attempt)
    ensures var after := HealthCheck(supported, BuildOutcome(supported, tsvPath, r, body, a).after);
      forall q :: (q in after.loadedIndexes <==> q in r.loaded) || (PlatformOf(body).Str? && q == PlatformOf(body).s)
    ensures var after := HealthCheck(supported, DeleteOutcome(supported, r, body, a).after);
      forall q :: (q in after.loadedIndexes <==> q in r.loaded) || (PlatformOf(body).Str? && q == PlatformOf(body).s)
    ensures !ValidatePlatform(supported, PlatformOf(body)) || a.Throws? ==>
      && HealthCheck(supported, BuildOutcome(supported, tsvPath, r, body, a).after) == HealthCheck(supported, r)
      && HealthCheck(supported, DeleteOutcome(supported, r, body, a).after) == HealthCheck(supported, r)
  {
  }
}
