/** The n8n Code node that imports scripts: each input item's JSON is mapped onto the
    `scripts` row shape by first-truthy fallback chains, checked for the required fields, and
    POSTed to the REST endpoint; one result per item is collected. The HTTP request's outcome
    for each item is a parameter. */
module N8nInsert {
  import opened Wrappers
  import opened Text
  import opened Scripts
  import opened Seqs

  /** The JavaScript values the node handles. Numbers are integers here. */
  datatype JsValue =
    | Undefined
    | Null
    | Bool(b: bool)
    | Num(n: int)
    | Str(s: string)
    | Arr(items: seq<JsValue>)
    | Obj(fields: map<string, JsValue>)

  /** JavaScript truthiness: `undefined`, `null`, `false`, `0` and `""` are falsy. */
  predicate Truthy(v: JsValue) {
    match v
    case Undefined => false
    case Null => false
    case Bool(b) => b
    case Num(n) => n != 0
    case Str(s) => s != ""
    case Arr(_) => true
    case Obj(_) => true
  }

  /** `obj.key` on an object: `undefined` when the property is absent. */
  function Get(obj: map<string, JsValue>, key: string): JsValue {
    if key in obj then obj[key] else Undefined
  }

  /** `v?.key`: an own property of an object value, `undefined` for anything else. */
  function GetProp(v: JsValue, key: string): JsValue {
    if v.Obj? then Get(v.fields, key) else Undefined
  }

  /** `data[keys[0]] || data[keys[1]] || … || fallback`. */
  function FirstTruthy(data: map<string, JsValue>, keys: seq<string>, fallback: JsValue): JsValue {
    if keys == [] then fallback
    else if Truthy(Get(data, keys[0])) then Get(data, keys[0])
    else FirstTruthy(data, keys[1..], fallback)
  }

  /** A fallback chain yields the first truthy candidate, or the fallback when none is. */
  lemma {:induction false} FirstTruthyMeaning(data: map<string, JsValue>, keys: seq<string>, fallback: JsValue)
    ensures var r := FirstTruthy(data, keys, fallback);
      ((forall i :: 0 <= i < |keys| ==> !Truthy(Get(data, keys[i]))) ==> r == fallback) &&
      (forall i :: (0 <= i < |keys| && Truthy(Get(data, keys[i])) &&
        (forall j :: 0 <= j < i ==> !Truthy(Get(data, keys[j])))) ==> r == Get(data, keys[i]))
  {
    if keys != [] {
      FirstTruthyMeaning(data, keys[1..], fallback);
      assert forall i :: 1 <= i < |keys| ==> keys[i] == keys[1..][i - 1];
    }
  }

  /** The row the node builds from one item (`scriptData`). */
  datatype ScriptData = ScriptData(
    title: JsValue,
    rawText: JsValue,
    contentCnDraft: JsValue,
    sourceUrl: JsValue,
    contentCnFinal: JsValue,
    contentEn: JsValue,
    audioUrl: JsValue,
    status: Status,
    tags: JsValue)

  const UNTITLED := "Untitled Script"

  /** `['new', 'editing', 'done'].includes(data.status) ? data.status : 'new'`. */
  function StatusOf(v: JsValue): (r: Status)
    ensures v.Str? && ParseStatus(v.s).Some? ==> StatusName(r) == v.s
    ensures !(v.Str? && ParseStatus(v.s).Some?) ==> r == New
  {
    if v.Str? && ParseStatus(v.s).Some? then ParseStatus(v.s).value else New
  }

  /** The trimmed pieces of a comma-separated tag list. */
  function TagPieces(s: string): (r: seq<JsValue>)
    ensures |r| == multiset(s)[','] + 1
    ensures forall i :: 0 <= i < |r| ==> r[i].Str? && IsTrimmed(r[i].s) && ',' !in r[i].s
  {
    var parts := Split(s, ',');
    seq(|parts|, i requires 0 <= i < |parts| => Str(Trim(parts[i])))
  }

  /** The tags are the trimmed pieces between the commas: some comma-free pieces that
      join back with `,` into the whole string, trimmed one by one. */
  lemma TagPiecesContents(s: string)
    ensures exists parts: seq<string> ::
              && Join(parts, [',']) == s
              && (forall p :: p in parts ==> ',' !in p)
              && |parts| == |TagPieces(s)|
              && forall i :: 0 <= i < |parts| ==> TagPieces(s)[i] == Str(Trim(parts[i]))
  {
    JoinSplit(s, ',');
    var parts := Split(s, ',');
    assert forall i :: 0 <= i < |parts| ==> TagPieces(s)[i] == Str(Trim(parts[i]));
  }

  /** The `tags` expression: an array passes through, a truthy string is split on `,` and
      trimmed, a falsy value gives `[]`; `None` when `.split` is called on a truthy value
      that has none, which throws a `TypeError` outside the `try`. */
  function TagsOf(v: JsValue): (r: Option<JsValue>)
    ensures v.Arr? ==> r == Some(v)
    ensures v.Str? && v.s != "" ==> r == Some(Arr(TagPieces(v.s)))
    ensures !Truthy(v) ==> r == Some(Arr([]))
    ensures r.None? <==> Truthy(v) && !v.Arr? && !v.Str?
  {
    if v.Arr? then Some(v)
    else if Truthy(v) then (if v.Str? then Some(Arr(TagPieces(v.s))) else None)
    else Some(Arr([]))
  }

  /** The `scriptData` object for one item's JSON, or `None` when computing it throws. */
  function MapItem(data: map<string, JsValue>): (r: Option<ScriptData>)
    ensures r.None? <==> TagsOf(Get(data, "tags")).None?
  {
    match TagsOf(Get(data, "tags"))
    case None => None
    case Some(tags) =>
      Some(ScriptData(
        FirstTruthy(data, ["title", "name", "heading"], Str(UNTITLED)),
        FirstTruthy(data, ["raw_text", "content", "text", "body"], Str("")),
        FirstTruthy(data, ["content_cn_draft", "draft", "chinese_content", "content"], Str("")),
        FirstTruthy(data, ["source_url", "url", "link"], Null),
        FirstTruthy(data, ["content_cn_final", "final_content"], Null),
        FirstTruthy(data, ["content_en", "english_content"], Null),
        FirstTruthy(data, ["audio_url", "audio"], Null),
        StatusOf(Get(data, "status")),
        tags))
  }

  /** A chain that ends in a truthy fallback always yields a truthy value. */
  lemma {:induction false} TruthyFallback(data: map<string, JsValue>, keys: seq<string>, fallback: JsValue)
    requires Truthy(fallback)
    ensures Truthy(FirstTruthy(data, keys, fallback))
  {
    if keys != [] && !Truthy(Get(data, keys[0])) {
      TruthyFallback(data, keys[1..], fallback);
    }
  }

  /** The title chain ends in `'Untitled Script'`, so the title is always truthy and the
      required-field test never fails on it. */
  lemma TitleAlwaysTruthy(data: map<string, JsValue>)
    requires MapItem(data).Some?
    ensures Truthy(MapItem(data).value.title)
  {
    TruthyFallback(data, ["title", "name", "heading"], Str(UNTITLED));
  }

  /** `source_url` is the first truthy one of `source_url`, `url` and `link`, and `null`
      when none is. */
  lemma SourceUrlFallback(data: map<string, JsValue>)
    requires MapItem(data).Some?
    ensures var url := MapItem(data).value.sourceUrl;
      if Truthy(Get(data, "source_url")) then url == Get(data, "source_url")
      else if Truthy(Get(data, "url")) then url == Get(data, "url")
      else if Truthy(Get(data, "link")) then url == Get(data, "link")
      else url == Null
  {
    var keys := ["source_url", "url", "link"];
    FirstTruthyMeaning(data, keys, Null);
    assert keys[0] == "source_url" && keys[1] == "url" && keys[2] == "link";
    if !Truthy(Get(data, "source_url")) && Truthy(Get(data, "url")) {
      assert forall j :: 0 <= j < 1 ==> !Truthy(Get(data, keys[j]));
    } else if !Truthy(Get(data, "source_url")) && !Truthy(Get(data, "url")) {
      assert forall j :: 0 <= j < 2 ==> !Truthy(Get(data, keys[j]));
    }
  }

  /** The required-field test: `title`, `raw_text` and `content_cn_draft` all truthy. */
  predicate HasRequiredFields(d: ScriptData) {
    Truthy(d.title) && Truthy(d.rawText) && Truthy(d.contentCnDraft)
  }

  /** How the POST for one item ended: the inserted row, or the thrown error object. */
  datatype HttpOutcome = Responded(response: map<string, JsValue>) | Threw(error: map<string, JsValue>)

  /** The `json` of one result. */
  datatype ItemResult =
    | Invalid(title: JsValue, rawTextPresent: bool, draftPresent: bool)
    | Inserted(script: map<string, JsValue>, id: JsValue, title: JsValue, status: JsValue, createdAt: JsValue)
    | Failed(error: JsValue, errorDetails: JsValue, attemptedData: ScriptData)

  /** The error text the catch block reports and the details it attaches. */
  function ErrorMessage(error: map<string, JsValue>): (r: (JsValue, JsValue))
    ensures Truthy(r.0)
    ensures var response := Get(error, "response"); var body := GetProp(response, "body");
      if Truthy(response) then
        r.1 == body &&
        (if Truthy(GetProp(body, "message")) then r.0 == GetProp(body, "message")
         else if Truthy(GetProp(body, "error_description")) then r.0 == GetProp(body, "error_description")
         else r.0 == Str("HTTP error"))
      else
        r.1 == Null &&
        (if Truthy(Get(error, "message")) then r.0 == Get(error, "message") else r.0 == Str("Unknown error"))
  {
    var response := Get(error, "response");
    if Truthy(response) then
      var body := GetProp(response, "body");
      var message :=
        if Truthy(GetProp(body, "message")) then GetProp(body, "message")
        else if Truthy(GetProp(body, "error_description")) then GetProp(body, "error_description")
        else Str("HTTP error");
      (message, body)
    else if Truthy(Get(error, "message")) then (Get(error, "message"), Null)
    else (Str("Unknown error"), Null)
  }

  /** The result for one mapped item given the outcome its request would have. */
  function ItemResultOf(d: ScriptData, outcome: HttpOutcome): (r: ItemResult)
    ensures r.Invalid? <==> !HasRequiredFields(d)
    ensures r.Invalid? ==> r.title == d.title && r.rawTextPresent == Truthy(d.rawText) && r.draftPresent == Truthy(d.contentCnDraft)
    ensures r.Failed? <==> HasRequiredFields(d) && outcome.Threw?
    ensures r.Failed? ==> r.attemptedData == d && (r.error, r.errorDetails) == ErrorMessage(outcome.error)
    ensures r.Inserted? ==> (
      && r.script == outcome.response
      && r.id == Get(outcome.response, "id")
      && r.title == Get(outcome.response, "title")
      && r.status == Get(outcome.response, "status")
      && r.createdAt == Get(outcome.response, "created_at"))
  {
    if !HasRequiredFields(d) then Invalid(d.title, Truthy(d.rawText), Truthy(d.contentCnDraft))
    else
      match outcome
      case Responded(response) =>
        Inserted(response, Get(response, "id"), Get(response, "title"), Get(response, "status"), Get(response, "created_at"))
      case Threw(error) =>
        var (message, details) := ErrorMessage(error);
        Failed(message, details, d)
  }

  /** The mapped rows of the first `n` items, all of which map without throwing. */
  function MappedPrefix(items: seq<map<string, JsValue>>, n: nat): (r: seq<ScriptData>)
    requires n <= |items| && forall j :: 0 <= j < n ==> MapItem(items[j]).Some?
    ensures |r| == n && forall j :: 0 <= j < n ==> r[j] == MapItem(items[j]).value
  {
    seq(n, j requires 0 <= j < n => MapItem(items[j]).value)
  }

  /** The rows that pass validation and so are sent, in order. */
  function Sent(rows: seq<ScriptData>): (r: seq<ScriptData>)
    ensures |r| <= |rows|
    ensures forall d :: d in r ==> d in rows && HasRequiredFields(d)
  {
    if rows == [] then []
    else (if HasRequiredFields(rows[0]) then [rows[0]] else []) + Sent(rows[1..])
  }

  /** What is sent is exactly the valid rows: in their order, every copy of each. */
  lemma {:induction false} SentSelection(rows: seq<ScriptData>)
    ensures IsSubsequence(Sent(rows), rows)
    ensures forall d :: multiset(Sent(rows))[d] == if HasRequiredFields(d) then multiset(rows)[d] else 0
  {
    if rows != [] {
      var rest := Sent(rows[1..]);
      SentSelection(rows[1..]);
      assert rows == [rows[0]] + rows[1..];
      SubsequenceCons(rest, rows[1..], rows[0]);
      if HasRequiredFields(rows[0]) {
        assert ([rows[0]] + rest)[1..] == rest;
      } else {
        assert Sent(rows) == [] + rest;
        assert [] + rest == rest;
      }
    }
  }

  /** The contract of `Sent` leaves it no freedom: any order-keeping selection of `rows`
      with exactly the valid rows' copies is `Sent(rows)`. */
  lemma SentUnique(rows: seq<ScriptData>, r: seq<ScriptData>)
    requires IsSubsequence(r, rows)
    requires forall d :: multiset(r)[d] == if HasRequiredFields(d) then multiset(rows)[d] else 0
    ensures r == Sent(rows)
  {
    SentSelection(rows);
    SelectionUnique(r, Sent(rows), rows, HasRequiredFields);
  }

  /** One pass of the loop body for a mapped item: the result pushed for it, and whether
      its request is made (only a row that passes validation is posted). */
  method HandleItem(d: ScriptData, outcome: HttpOutcome) returns (result: ItemResult, sends: bool)
    ensures sends <==> Truthy(d.title) && Truthy(d.rawText) && Truthy(d.contentCnDraft)
    ensures result == ItemResultOf(d, outcome)
  {
    result := ItemResultOf(d, outcome);
    sends := HasRequiredFields(d);
  }

  /** The node's run: the result list, or `Err(k)` when item `k`'s mapping throws and the
      node fails; and the request bodies sent, in order. `http(k)` is the outcome of the
      request for item `k`. */
  method RunNode(items: seq<map<string, JsValue>>, http: nat -> HttpOutcome)
    returns (results: Result<seq<ItemResult>, nat>, sent: seq<ScriptData>)
    ensures results.Ok? <==> forall k :: 0 <= k < |items| ==> MapItem(items[k]).Some?
    ensures results.Ok? ==> (|results.value| == |items| &&
      (forall k :: 0 <= k < |items| ==> results.value[k] == ItemResultOf(MapItem(items[k]).value, http(k))) &&
      sent == Sent(MappedPrefix(items, |items|)))
    ensures results.Err? ==> var k := results.error;
      k < |items| && MapItem(items[k]).None? &&
      (forall j :: 0 <= j < k ==> MapItem(items[j]).Some?) &&
      sent == Sent(MappedPrefix(items, k))
  {
    var list: seq<ItemResult> := [];
    sent := [];
    for k := 0 to |items|
      invariant forall j :: 0 <= j < k ==> MapItem(items[j]).Some?
      invariant |list| == k
      invariant forall j :: 0 <= j < k ==> list[j] == ItemResultOf(MapItem(items[j]).value, http(j))
      invariant sent == Sent(MappedPrefix(items, k))
    {
      var mapped := MapItem(items[k]);
      if mapped.None? {
        return Err(k), sent;
      }
      var d := mapped.value;
      SentPrefixStep(items, k);
      var result, sends := HandleItem(d, http(k));
      assert sends == HasRequiredFields(d);
      if sends {
        sent := sent + [d];
      }
      list := list + [result];
    }
    results := Ok(list);
  }

  /** Mapping one more item extends what is sent by its row exactly when that row is valid. */
  lemma SentPrefixStep(items: seq<map<string, JsValue>>, k: nat)
    requires k < |items| && forall j :: 0 <= j <= k ==> MapItem(items[j]).Some?
    ensures var d := MapItem(items[k]).value;
      Sent(MappedPrefix(items, k + 1)) == Sent(MappedPrefix(items, k)) + if HasRequiredFields(d) then [d] else []
  {
    SentStep(MappedPrefix(items, k + 1));
    assert MappedPrefix(items, k + 1)[..k] == MappedPrefix(items, k);
  }

  /** Extending the rows by one extends what is sent by that row exactly when it is valid. */
  lemma {:induction false} SentStep(rows: seq<ScriptData>)
    requires rows != []
    ensures Sent(rows) == Sent(rows[..|rows| - 1]) + (if HasRequiredFields(rows[|rows| - 1]) then [rows[|rows| - 1]] else [])
    decreases |rows|
  {
    if |rows| > 1 {
      SentStep(rows[1..]);
      assert rows[1..][..|rows| - 2] == rows[..|rows| - 1][1..];
    } else {
      assert rows[..0] == [];
    }
  }
}
