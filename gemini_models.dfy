/** The Gemini model entries and the queries `lib/gemini-models.ts` runs over a list of them. */
module GeminiModels {
  import opened Wrappers
  import opened Seqs

  datatype ModelStatus = Stable | Preview | Experimental | Deprecated

  /** One catalogue entry; the optional properties are `None` when an entry omits them. */
  datatype GeminiModel = GeminiModel(
    id: string,
    name: string,
    description: string,
    maxTokens: Option<nat>,
    contextWindow: Option<nat>,
    inputTypes: Option<seq<string>>,
    outputTypes: Option<seq<string>>,
    status: ModelStatus)

  /** The model used when the caller names none. */
  const DEFAULT_MODEL: string := "gemini-2.5-flash"

  /** No two entries of `models` share an id. */
  predicate DistinctIds(models: seq<GeminiModel>) {
    forall i, j :: 0 <= i < j < |models| ==> models[i].id != models[j].id
  }

  /** `models.find(model => model.id === id)`: the first entry with that id. */
  function Find(models: seq<GeminiModel>, id: string): (r: Option<GeminiModel>)
    ensures r.None? <==> forall k :: 0 <= k < |models| ==> models[k].id != id
    ensures r.Some? ==> r.value.id == id
    ensures r.Some? ==> exists k :: 0 <= k < |models| && models[k] == r.value &&
                                    forall j :: 0 <= j < k ==> models[j].id != id
  {
    if models == [] then None
    else if models[0].id == id then Some(models[0])
    else
      var r := Find(models[1..], id);
      assert r.Some? ==> exists k :: 0 <= k < |models| && models[k] == r.value &&
                                     forall j :: 0 <= j < k ==> models[j].id != id by {
        if r.Some? {
          var k :| 0 <= k < |models| - 1 && models[1..][k] == r.value &&
                   forall j :: 0 <= j < k ==> models[1..][j].id != id;
          assert models[k + 1] == r.value;
          assert forall j :: 1 <= j < k + 1 ==> models[j] == models[1..][j - 1];
        }
      }
      r
  }

  /** `models.filter(model => model.status === status)`. */
  function WithStatus(models: seq<GeminiModel>, status: ModelStatus): (r: seq<GeminiModel>)
    ensures forall m :: m in r <==> m in models && m.status == status
    ensures IsSubsequence(r, models)
    ensures forall m :: multiset(r)[m] == if m.status == status then multiset(models)[m] else 0
  {
    if models == [] then []
    else
      var rest := WithStatus(models[1..], status);
      assert models == [models[0]] + models[1..];
      assert multiset(models) == multiset{models[0]} + multiset(models[1..]);
      SubsequenceCons(rest, models[1..], models[0]);
      if models[0].status == status then
        assert multiset([models[0]] + rest) == multiset{models[0]} + multiset(rest);
        [models[0]] + rest
      else
        assert forall m: GeminiModel :: m.status == status ==> multiset(models)[m] == multiset(models[1..])[m];
        rest
  }

  /** The contract of `WithStatus` leaves it no freedom: any order-keeping selection of
      `models` with exactly the copies of the matching models is `WithStatus(models, status)`. */
  lemma WithStatusUnique(models: seq<GeminiModel>, status: ModelStatus, r: seq<GeminiModel>)
    requires IsSubsequence(r, models)
    requires forall m :: multiset(r)[m] == if m.status == status then multiset(models)[m] else 0
    ensures r == WithStatus(models, status)
  {
    var keep := (m: GeminiModel) => m.status == status;
    var filtered := WithStatus(models, status);
    SelectsByStatus(r, models, status, keep);
    SelectsByStatus(filtered, models, status, keep);
    SelectionUnique(r, filtered, models, keep);
  }

  /** A selection by status is a selection by any test that holds exactly for that status. */
  lemma SelectsByStatus(r: seq<GeminiModel>, models: seq<GeminiModel>, status: ModelStatus, keep: GeminiModel -> bool)
    requires IsSubsequence(r, models)
    requires forall m :: multiset(r)[m] == if m.status == status then multiset(models)[m] else 0
    requires forall m :: keep(m) == (m.status == status)
    ensures Selects(r, models, keep)
  {
  }

  /** With distinct ids, looking an entry up by its own id finds that entry. */
  lemma {:induction false} FindOwnId(models: seq<GeminiModel>, m: GeminiModel)
    requires DistinctIds(models) && m in models
    ensures Find(models, m.id) == Some(m)
  {
    var r := Find(models, m.id);
    var i :| 0 <= i < |models| && models[i] == m;
    var k :| 0 <= k < |models| && models[k] == r.value &&
             forall j :: 0 <= j < k ==> models[j].id != m.id;
    assert k == i;
  }
}
