/** The application component: its five state cells, the handlers that step
    through them, the selection toggle and the batch generation with its
    per-scenario failure isolation and success filter. */
module App {
  import opened Wrappers
  import opened Types
  import Text
  import GeminiService

  // ---------------------------------------------------------------------
  // Selection toggle

  predicate Distinct(s: seq<string>) {
    forall i, j :: 0 <= i < j < |s| ==> s[i] != s[j]
  }

  /** `prev.filter(s => s !== id)`: drops every occurrence of `id` and keeps
      the rest in order. */
  function RemoveAll(s: seq<string>, id: string): (r: seq<string>)
    ensures forall x :: x in r <==> x in s && x != id
    ensures |r| <= |s|
  {
    if s == [] then []
    else if s[0] == id then RemoveAll(s[1..], id)
    else [s[0]] + RemoveAll(s[1..], id)
  }

  /** The updater of `handleToggleScenario`: removes `id` when present,
      otherwise appends it; the catalog is not consulted. */
  function Toggle(prev: seq<string>, id: string): (r: seq<string>)
    ensures id in r <==> id !in prev
    ensures forall x :: x != id ==> (x in r <==> x in prev)
    ensures id !in prev ==> r == prev + [id]
  {
    if id in prev then RemoveAll(prev, id) else prev + [id]
  }

  /** `filter` distributes over concatenation. */
  lemma {:induction false} RemoveAllConcat(a: seq<string>, b: seq<string>, id: string)
    ensures RemoveAll(a + b, id) == RemoveAll(a, id) + RemoveAll(b, id)
  {
    if a == [] {
      assert a + b == b;
    } else {
      assert (a + b)[0] == a[0] && (a + b)[1..] == a[1..] + b;
      RemoveAllConcat(a[1..], b, id);
      if a[0] != id {
        assert [a[0]] + (RemoveAll(a[1..], id) + RemoveAll(b, id))
            == ([a[0]] + RemoveAll(a[1..], id)) + RemoveAll(b, id);
      }
    }
  }

  /** `filter` on one element keeps it exactly when it is not `id`. */
  lemma RemoveAllSingle(x: string, id: string)
    ensures RemoveAll([x], id) == if x == id then [] else [x]
  {
    assert [x][1..] == [];
  }

  /** `filter` keeps every other id with its multiplicity and drops every
      occurrence of `id`. */
  lemma {:induction false} RemoveAllCounts(s: seq<string>, id: string)
    ensures multiset(RemoveAll(s, id))[id] == 0
    ensures forall x :: x != id ==> multiset(RemoveAll(s, id))[x] == multiset(s)[x]
  {
    if s != [] {
      RemoveAllCounts(s[1..], id);
      assert s == [s[0]] + s[1..];
    }
  }

  lemma {:induction false} RemoveAllKeepsDistinct(s: seq<string>, id: string)
    requires Distinct(s)
    ensures Distinct(RemoveAll(s, id))
  {
    if s != [] {
      RemoveAllKeepsDistinct(s[1..], id);
      if s[0] != id {
        var rest := RemoveAll(s[1..], id);
        assert s[0] !in s[1..];
        assert forall k :: 0 <= k < |rest| ==> rest[k] in s[1..];
      }
    }
  }

  /** A selection without duplicates stays without duplicates. */
  lemma ToggleKeepsDistinct(prev: seq<string>, id: string)
    requires Distinct(prev)
    ensures Distinct(Toggle(prev, id))
  {
    if id in prev {
      RemoveAllKeepsDistinct(prev, id);
    }
  }

  lemma {:induction false} RemoveAppended(s: seq<string>, id: string)
    requires id !in s
    ensures RemoveAll(s + [id], id) == s
  {
    if s != [] {
      assert (s + [id])[1..] == s[1..] + [id];
      RemoveAppended(s[1..], id);
    }
  }

  /** Toggling an id that is absent twice restores the exact selection. */
  lemma ToggleAbsentTwice(prev: seq<string>, id: string)
    requires id !in prev
    ensures Toggle(Toggle(prev, id), id) == prev
  {
    RemoveAppended(prev, id);
  }

  /** Toggling a present id twice restores the same members, with `id`
      moved to the end. */
  lemma TogglePresentTwice(prev: seq<string>, id: string)
    requires id in prev
    ensures Toggle(Toggle(prev, id), id) == RemoveAll(prev, id) + [id]
    ensures forall x :: x in Toggle(Toggle(prev, id), id) <==> x in prev
  {
  }

  // ---------------------------------------------------------------------
  // Batch generation

  /** `catalog.find(s => s.id === id)`: the first entry with that id, or
      nothing. */
  function FindScenario(catalog: seq<Scenario>, id: string): (r: Option<Scenario>)
    ensures r.None? <==> forall i :: 0 <= i < |catalog| ==> catalog[i].id != id
    ensures r.Some? ==> r.value in catalog && r.value.id == id
  {
    if catalog == [] then None
    else if catalog[0].id == id then Some(catalog[0])
    else FindScenario(catalog[1..], id)
  }

  /** The entry `find` yields is the first one carrying the id. */
  lemma {:induction false} FindScenarioFirst(catalog: seq<Scenario>, id: string)
    ensures FindScenario(catalog, id).Some? ==>
      exists i :: 0 <= i < |catalog| && catalog[i] == FindScenario(catalog, id).value
                  && (forall j :: 0 <= j < i ==> catalog[j].id != id)
  {
    if catalog != [] && catalog[0].id != id {
      FindScenarioFirst(catalog[1..], id);
      if FindScenario(catalog, id).Some? {
        var i :| 0 <= i < |catalog[1..]| && catalog[1..][i] == FindScenario(catalog, id).value
                 && (forall j :: 0 <= j < i ==> catalog[1..][j].id != id);
        assert catalog[i + 1] == FindScenario(catalog, id).value;
        forall j | 0 <= j < i + 1 ensures catalog[j].id != id {
          if j > 0 { assert catalog[j] == catalog[1..][j - 1]; }
        }
      }
    }
  }

  /** No two entries of `catalog` share a name. */
  predicate NamesDistinct(catalog: seq<Scenario>) {
    forall i, j :: 0 <= i < j < |catalog| ==> catalog[i].name != catalog[j].name
  }

  /** In a table whose names are distinct, two entries with the same name
      are the same entry. */
  lemma NamesIdentifyEntries(catalog: seq<Scenario>, a: Scenario, b: Scenario)
    requires NamesDistinct(catalog)
    requires a in catalog && b in catalog
    requires a.name == b.name
    ensures a == b
  {
    var i :| 0 <= i < |catalog| && catalog[i] == a;
    var j :| 0 <= j < |catalog| && catalog[j] == b;
  }

  /** `${scenarioId}-${Date.now()}` */
  function ResultId(scenarioId: string, now: nat): string {
    scenarioId + "-" + Text.Decimal(now)
  }

  /** The record built for a successful call. */
  function NewRecord(scenarioId: string, scenario: Scenario, image: string, url: string, now: nat): GeneratedImage {
    GeneratedImage(ResultId(scenarioId, now), image, url, scenario.name, scenario.promptTemplate, now, None)
  }

  /** What one element of `selectedScenarios.map(...)` settles to: nothing
      for an unknown id or a failed call, else the new record. */
  function Attempt(catalog: seq<Scenario>, client: GeminiService.Client, image: string, scenarioId: string, now: nat): Option<GeneratedImage> {
    match FindScenario(catalog, scenarioId)
    case None => None
    case Some(scenario) =>
      match GeminiService.GenerateOutcome(client, image, scenario.promptTemplate)
      case Err(_) => None
      case Ok(url) => Some(NewRecord(scenarioId, scenario, image, url, now))
  }

  /** `Promise.all` over the selection: one settled value per id, in
      selection order; `clock(i)` is the time the i-th record is stamped. */
  function Attempts(catalog: seq<Scenario>, client: GeminiService.Client, image: string, ids: seq<string>, clock: nat -> nat)
    : (r: seq<Option<GeneratedImage>>)
    ensures |r| == |ids|
    ensures forall i :: 0 <= i < |ids| ==> r[i] == Attempt(catalog, client, image, ids[i], clock(i))
  {
    if ids == [] then []
    else Attempts(catalog, client, image, ids[..|ids| - 1], clock)
         + [Attempt(catalog, client, image, ids[|ids| - 1], clock(|ids| - 1))]
  }

  /** `results.filter(r => r !== null)` */
  function Successes<T>(xs: seq<Option<T>>): (r: seq<T>)
    ensures |r| <= |xs|
  {
    if xs == [] then []
    else match xs[0]
      case None => Successes(xs[1..])
      case Some(v) => [v] + Successes(xs[1..])
  }

  /** The filter keeps exactly the values of the non-null entries. */
  lemma {:induction false} SuccessesMembers<T>(xs: seq<Option<T>>)
    ensures forall y :: y in Successes(xs) <==> Some(y) in xs
  {
    if xs != [] {
      SuccessesMembers(xs[1..]);
      assert xs == [xs[0]] + xs[1..];
    }
  }

  /** All null: the filter yields nothing. */
  lemma {:induction false} SuccessesAllNone<T>(xs: seq<Option<T>>)
    requires forall i :: 0 <= i < |xs| ==> xs[i].None?
    ensures Successes(xs) == []
  {
    if xs != [] {
      SuccessesAllNone(xs[1..]);
    }
  }

  /** None null: the filter keeps every entry. */
  lemma {:induction false} SuccessesAllSome<T>(xs: seq<Option<T>>)
    requires forall i :: 0 <= i < |xs| ==> xs[i].Some?
    ensures |Successes(xs)| == |xs|
  {
    if xs != [] {
      SuccessesAllSome(xs[1..]);
    }
  }

  /** The positions at or after `from` of the settled values that are not
      null, ascending. */
  function SuccessIndices<T>(xs: seq<Option<T>>, from: nat): (idx: seq<nat>)
    requires from <= |xs|
    ensures forall k :: 0 <= k < |idx| ==> from <= idx[k] < |xs| && xs[idx[k]].Some?
    decreases |xs| - from
  {
    if from == |xs| then []
    else if xs[from].Some? then [from] + SuccessIndices(xs, from + 1)
    else SuccessIndices(xs, from + 1)
  }

  /** The positions ascend. */
  lemma {:induction false} SuccessIndicesAscending<T>(xs: seq<Option<T>>, from: nat)
    requires from <= |xs|
    ensures forall k, l :: 0 <= k < l < |SuccessIndices(xs, from)| ==>
      SuccessIndices(xs, from)[k] < SuccessIndices(xs, from)[l]
    decreases |xs| - from
  {
    if from < |xs| && xs[from].Some? {
      SuccessIndicesAscending(xs, from + 1);
      var idx, rest := SuccessIndices(xs, from), SuccessIndices(xs, from + 1);
      assert idx == [from] + rest;
      forall k, l | 0 <= k < l < |idx|
        ensures idx[k] < idx[l]
      {
        assert idx[l] == rest[l - 1];
        if k > 0 {
          assert idx[k] == rest[k - 1];
        }
      }
    } else if from < |xs| {
      SuccessIndicesAscending(xs, from + 1);
    }
  }

  /** Every non-null position at or after `from` is among the positions. */
  lemma {:induction false} SuccessIndicesComplete<T>(xs: seq<Option<T>>, from: nat)
    requires from <= |xs|
    ensures forall i :: from <= i < |xs| && xs[i].Some? ==> i in SuccessIndices(xs, from)
    decreases |xs| - from
  {
    if from < |xs| {
      SuccessIndicesComplete(xs, from + 1);
      var idx, rest := SuccessIndices(xs, from), SuccessIndices(xs, from + 1);
      forall i | from <= i < |xs| && xs[i].Some?
        ensures i in idx
      {
        if i > from {
          assert i in rest;
        }
      }
    }
  }

  /** One step of the filter on the suffix from `from`. */
  lemma SuccessesStep<T>(xs: seq<Option<T>>, from: nat)
    requires from < |xs|
    ensures Successes(xs[from..]) ==
      (if xs[from].Some? then [xs[from].value] else []) + Successes(xs[from + 1..])
  {
    assert xs[from..][1..] == xs[from + 1..];
  }

  /** The filtered suffix from `from` is the subsequence of the settled
      values at `SuccessIndices(xs, from)`: exactly the non-null ones, in
      their original order. */
  lemma {:induction false} SuccessesInOrder<T>(xs: seq<Option<T>>, from: nat)
    requires from <= |xs|
    ensures |Successes(xs[from..])| == |SuccessIndices(xs, from)|
    ensures forall k :: 0 <= k < |SuccessIndices(xs, from)| ==>
      xs[SuccessIndices(xs, from)[k]] == Some(Successes(xs[from..])[k])
    decreases |xs| - from
  {
    if from < |xs| {
      SuccessesInOrder(xs, from + 1);
      SuccessesStep(xs, from);
      var rest, restIdx := Successes(xs[from + 1..]), SuccessIndices(xs, from + 1);
      if xs[from].Some? {
        var all, idx := Successes(xs[from..]), SuccessIndices(xs, from);
        assert idx == [from] + restIdx;
        forall k | 0 <= k < |idx|
          ensures xs[idx[k]] == Some(all[k])
        {
          if k > 0 {
            assert idx[k] == restIdx[k - 1] && all[k] == rest[k - 1];
          }
        }
      }
    }
  }

  /** Exactly one null among the settled values drops exactly one element. */
  lemma {:induction false} OneGapDropsOne<T>(xs: seq<Option<T>>, j: nat)
    requires j < |xs| && xs[j].None?
    requires forall i :: 0 <= i < |xs| && i != j ==> xs[i].Some?
    ensures |Successes(xs)| == |xs| - 1
  {
    if j == 0 {
      assert forall i :: 0 <= i < |xs[1..]| ==> xs[1..][i] == xs[i + 1];
      SuccessesAllSome(xs[1..]);
    } else {
      OneGapDropsOne(xs[1..], j - 1);
    }
  }

  /** The result list of one batch. */
  function BatchResults(catalog: seq<Scenario>, client: GeminiService.Client, image: string, ids: seq<string>, clock: nat -> nat)
    : seq<GeneratedImage>
  {
    Successes(Attempts(catalog, client, image, ids, clock))
  }

  /** `r` is the record a successful call for `scenarioId` builds. */
  predicate BuiltFrom(catalog: seq<Scenario>, r: GeneratedImage, image: string, scenarioId: string) {
    && FindScenario(catalog, scenarioId).Some?
    && r.scenarioName == FindScenario(catalog, scenarioId).value.name
    && r.promptUsed == FindScenario(catalog, scenarioId).value.promptTemplate
    && r.originalImageBase64 == image
    && scenarioId + "-" <= r.id
  }

  /** No more results than selected ids, each one built from a known
      selected scenario and the source image. */
  lemma BatchResultsFromSelection(catalog: seq<Scenario>, client: GeminiService.Client, image: string, ids: seq<string>, clock: nat -> nat)
    ensures |BatchResults(catalog, client, image, ids, clock)| <= |ids|
    ensures forall r :: r in BatchResults(catalog, client, image, ids, clock) ==>
      exists i :: 0 <= i < |ids| && BuiltFrom(catalog, r, image, ids[i])
  {
    var xs := Attempts(catalog, client, image, ids, clock);
    SuccessesMembers(xs);
    forall r | r in BatchResults(catalog, client, image, ids, clock)
      ensures exists i :: 0 <= i < |ids| && BuiltFrom(catalog, r, image, ids[i])
    {
      var i :| 0 <= i < |xs| && xs[i] == Some(r);
      var id := ids[i];
      assert (id + "-") + Text.Decimal(clock(i)) == ResultId(id, clock(i));
      assert BuiltFrom(catalog, r, image, ids[i]);
    }
  }

  /** Every result of a batch carries the batch's source image. */
  lemma BatchResultsKeepImage(catalog: seq<Scenario>, client: GeminiService.Client, image: string, ids: seq<string>, clock: nat -> nat)
    ensures forall k :: 0 <= k < |BatchResults(catalog, client, image, ids, clock)| ==>
      BatchResults(catalog, client, image, ids, clock)[k].originalImageBase64 == image
  {
    BatchResultsFromSelection(catalog, client, image, ids, clock);
    forall k | 0 <= k < |BatchResults(catalog, client, image, ids, clock)|
      ensures BatchResults(catalog, client, image, ids, clock)[k].originalImageBase64 == image
    {
      var r := BatchResults(catalog, client, image, ids, clock)[k];
      assert r in BatchResults(catalog, client, image, ids, clock);
    }
  }

  /** Results keep selection order: the k-th result comes from the
      `SuccessIndices(...)[k]`-th selected id, those positions ascend, and
      every selected id whose attempt settled to a record is among them. */
  lemma BatchResultsInSelectionOrder(catalog: seq<Scenario>, client: GeminiService.Client, image: string, ids: seq<string>, clock: nat -> nat)
    ensures var xs := Attempts(catalog, client, image, ids, clock);
            var idx := SuccessIndices(xs, 0);
            && |BatchResults(catalog, client, image, ids, clock)| == |idx|
            && (forall k :: 0 <= k < |idx| ==>
                  idx[k] < |ids| &&
                  Attempt(catalog, client, image, ids[idx[k]], clock(idx[k])) == Some(BatchResults(catalog, client, image, ids, clock)[k]))
            && (forall k, l :: 0 <= k < l < |idx| ==> idx[k] < idx[l])
            && (forall i :: 0 <= i < |ids| && Attempt(catalog, client, image, ids[i], clock(i)).Some? ==> i in idx)
  {
    var xs := Attempts(catalog, client, image, ids, clock);
    SuccessesInOrder(xs, 0);
    SuccessIndicesAscending(xs, 0);
    SuccessIndicesComplete(xs, 0);
    assert xs[0..] == xs;
  }

  /** When every call fails (or every id is unknown) the batch yields an
      empty list rather than an error. */
  lemma AllFailedYieldsEmpty(catalog: seq<Scenario>, client: GeminiService.Client, image: string, ids: seq<string>, clock: nat -> nat)
    requires forall i :: 0 <= i < |ids| ==> Attempt(catalog, client, image, ids[i], clock(i)).None?
    ensures BatchResults(catalog, client, image, ids, clock) == []
  {
    SuccessesAllNone(Attempts(catalog, client, image, ids, clock));
  }

  /** Without an API key no call succeeds, so the batch is empty. */
  lemma MissingKeyYieldsEmpty(catalog: seq<Scenario>, remote: GeminiService.Request -> GeminiService.Reply, image: string, ids: seq<string>, clock: nat -> nat)
    ensures BatchResults(catalog, GeminiService.Client("", remote), image, ids, clock) == []
  {
    AllFailedYieldsEmpty(catalog, GeminiService.Client("", remote), image, ids, clock);
  }

  /** A failed attempt for a known id among distinct selected ids leaves no
      result carrying that scenario's name, when the table's names are
      distinct. */
  lemma FailedScenarioNotShown(catalog: seq<Scenario>, client: GeminiService.Client, image: string, ids: seq<string>, clock: nat -> nat, j: nat)
    requires NamesDistinct(catalog)
    requires Distinct(ids) && j < |ids|
    requires FindScenario(catalog, ids[j]).Some?
    requires Attempt(catalog, client, image, ids[j], clock(j)).None?
    ensures forall r :: r in BatchResults(catalog, client, image, ids, clock) ==>
      r.scenarioName != FindScenario(catalog, ids[j]).value.name
  {
    var xs := Attempts(catalog, client, image, ids, clock);
    var b := FindScenario(catalog, ids[j]).value;
    SuccessesMembers(xs);
    forall r | r in BatchResults(catalog, client, image, ids, clock)
      ensures r.scenarioName != b.name
    {
      var i :| 0 <= i < |xs| && xs[i] == Some(r);
      var a := FindScenario(catalog, ids[i]).value;
      assert r.scenarioName == a.name;
      if a.name == b.name {
        NamesIdentifyEntries(catalog, a, b);
        assert false;
      }
    }
  }

  /** One failure among distinct selected ids that otherwise all succeed
      drops exactly that scenario. */
  lemma OneFailureDropsOne(catalog: seq<Scenario>, client: GeminiService.Client, image: string, ids: seq<string>, clock: nat -> nat, j: nat)
    requires NamesDistinct(catalog)
    requires Distinct(ids) && j < |ids|
    requires FindScenario(catalog, ids[j]).Some?
    requires Attempt(catalog, client, image, ids[j], clock(j)).None?
    requires forall i :: 0 <= i < |ids| && i != j ==> Attempt(catalog, client, image, ids[i], clock(i)).Some?
    ensures |BatchResults(catalog, client, image, ids, clock)| == |ids| - 1
    ensures forall r :: r in BatchResults(catalog, client, image, ids, clock) ==>
      r.scenarioName != FindScenario(catalog, ids[j]).value.name
  {
    OneGapDropsOne(Attempts(catalog, client, image, ids, clock), j);
    FailedScenarioNotShown(catalog, client, image, ids, clock, j);
  }

  /** Two selected ids found in the table whose calls both answer with an
      image give two results, in selection order. */
  lemma TwoSucceedInOrder(catalog: seq<Scenario>, client: GeminiService.Client, image: string, a: string, b: string, clock: nat -> nat)
    requires FindScenario(catalog, a).Some? && FindScenario(catalog, b).Some?
    requires GeminiService.GenerateOutcome(client, image, FindScenario(catalog, a).value.promptTemplate).Ok?
    requires GeminiService.GenerateOutcome(client, image, FindScenario(catalog, b).value.promptTemplate).Ok?
    ensures |BatchResults(catalog, client, image, [a, b], clock)| == 2
    ensures BatchResults(catalog, client, image, [a, b], clock)[0].scenarioName == FindScenario(catalog, a).value.name
    ensures BatchResults(catalog, client, image, [a, b], clock)[1].scenarioName == FindScenario(catalog, b).value.name
  {
    var ids := [a, b];
    var xs := Attempts(catalog, client, image, ids, clock);
    var m, t := FindScenario(catalog, a).value, FindScenario(catalog, b).value;
    assert xs[0].Some? && xs[0].value.scenarioName == m.name;
    assert xs[1].Some? && xs[1].value.scenarioName == t.name;
    assert xs[1..][0] == xs[1] && xs[1..][1..] == [];
    assert Successes(xs[1..]) == [xs[1].value];
    assert BatchResults(catalog, client, image, ids, clock) == [xs[0].value, xs[1].value];
  }

  /** A single selected id found in the table whose call fails gives no
      result. */
  lemma AloneFailing(catalog: seq<Scenario>, client: GeminiService.Client, image: string, a: string, clock: nat -> nat)
    requires FindScenario(catalog, a).Some?
    requires GeminiService.GenerateOutcome(client, image, FindScenario(catalog, a).value.promptTemplate).Err?
    ensures BatchResults(catalog, client, image, [a], clock) == []
  {
    var xs := Attempts(catalog, client, image, [a], clock);
    assert xs[0].None?;
  }

  /** One element of the `map`: look the scenario up, call the service,
      build the record, or settle to null. */
  method GenerateForScenario(catalog: seq<Scenario>, client: GeminiService.Client, image: string, scenarioId: string, now: nat)
    returns (r: Option<GeneratedImage>)
    ensures r == Attempt(catalog, client, image, scenarioId, now)
  {
    var scenario := FindScenario(catalog, scenarioId);
    if scenario.None? {
      return None;
    }
    var outcome, _ := GeminiService.GenerateMarketingImage(client, image, scenario.value.promptTemplate);
    match outcome {
      case Err(_) =>
        r := None;
      case Ok(url) =>
        r := Some(NewRecord(scenarioId, scenario.value, image, url, now));
    }
  }

  /** `Promise.all(selectedScenarios.map(...))`: every selected id is
      attempted, and the settled values keep selection order. */
  method GenerateAll(catalog: seq<Scenario>, client: GeminiService.Client, image: string, ids: seq<string>, clock: nat -> nat)
    returns (settled: seq<Option<GeneratedImage>>)
    ensures settled == Attempts(catalog, client, image, ids, clock)
  {
    settled := [];
    for i := 0 to |ids|
      invariant settled == Attempts(catalog, client, image, ids[..i], clock)
    {
      var one := GenerateForScenario(catalog, client, image, ids[i], clock(i));
      assert ids[..i + 1][..i] == ids[..i];
      settled := settled + [one];
    }
    assert ids[..|ids|] == ids;
  }

  // ---------------------------------------------------------------------
  // The application state

  /** `!originalImage` is false: an image is present and not empty. */
  predicate HasImage(image: Option<string>) {
    image.Some? && image.value != ""
  }

  class AppComponent {
    /** The scenario table the component looks selected ids up in. */
    const catalog: seq<Scenario>
    var appState: AppState
    var originalImage: Option<string>
    var selectedScenarios: seq<string>
    var generatedResults: seq<GeneratedImage>
    var isGenerating: bool

    /** The selection has no duplicates; past the upload screen there is a
        source image; the results screen shows results of the current image. */
    predicate Valid()
      reads this
    {
      && Distinct(selectedScenarios)
      && (appState == SelectScenario ==> originalImage.Some?)
      && (appState == Results ==> HasImage(originalImage))
      && (appState == Results ==> forall k :: 0 <= k < |generatedResults| ==>
            generatedResults[k].originalImageBase64 == originalImage.value)
    }

    /** A fresh component over the scenario table `catalog`. */
    constructor (catalog: seq<Scenario>)
      ensures Valid()
      ensures this.catalog == catalog
      ensures appState == Upload && originalImage == None
      ensures selectedScenarios == [] && generatedResults == [] && !isGenerating
    {
      this.catalog := catalog;
      appState := Upload;
      originalImage := None;
      selectedScenarios := [];
      generatedResults := [];
      isGenerating := false;
    }

    /** `handleImageSelected`: store the image and go to scenario selection. */
    method HandleImageSelected(base64: string)
      requires Valid()
      modifies this
      ensures Valid()
      ensures appState == SelectScenario && originalImage == Some(base64)
      ensures selectedScenarios == old(selectedScenarios)
      ensures generatedResults == old(generatedResults) && isGenerating == old(isGenerating)
    {
      originalImage := Some(base64);
      appState := SelectScenario;
    }

    /** `handleToggleScenario` */
    method HandleToggleScenario(id: string)
      requires Valid()
      modifies this
      ensures Valid()
      ensures selectedScenarios == Toggle(old(selectedScenarios), id)
      ensures appState == old(appState) && originalImage == old(originalImage)
      ensures generatedResults == old(generatedResults) && isGenerating == old(isGenerating)
    {
      ToggleKeepsDistinct(selectedScenarios, id);
      selectedScenarios := Toggle(selectedScenarios, id);
    }

    /** `handleGenerate`: nothing without an image or a selection; otherwise
        one attempt per selected id, in selection order, then the successes
        become the results and the results screen is shown. */
    method HandleGenerate(client: GeminiService.Client, clock: nat -> nat)
      requires Valid()
      modifies this
      ensures Valid()
      ensures !HasImage(old(originalImage)) || old(selectedScenarios) == [] ==>
        && appState == old(appState) && originalImage == old(originalImage)
        && selectedScenarios == old(selectedScenarios)
        && generatedResults == old(generatedResults) && isGenerating == old(isGenerating)
      ensures HasImage(old(originalImage)) && old(selectedScenarios) != [] ==>
        && appState == Results && !isGenerating
        && originalImage == old(originalImage) && selectedScenarios == old(selectedScenarios)
        && generatedResults == BatchResults(catalog, client, old(originalImage).value, old(selectedScenarios), clock)
    {
      if !HasImage(originalImage) || |selectedScenarios| == 0 {
        return;
      }
      isGenerating := true;
      var image, ids := originalImage.value, selectedScenarios;
      var settled := GenerateAll(catalog, client, image, ids, clock);
      var results := Successes(settled);
      assert results == BatchResults(catalog, client, image, ids, clock);
      BatchResultsKeepImage(catalog, client, image, ids, clock);
      generatedResults := results;
      appState := Results;
      isGenerating := false;
    }

    /** `handleRestart`: back to upload with everything cleared; the
        in-progress flag is left as it is. */
    method HandleRestart()
      requires Valid()
      modifies this
      ensures Valid()
      ensures appState == Upload && originalImage == None
      ensures selectedScenarios == [] && generatedResults == []
      ensures isGenerating == old(isGenerating)
    {
      appState := Upload;
      originalImage := None;
      selectedScenarios := [];
      generatedResults := [];
    }

    /** The "Change image" button: back to upload, keeping everything else. */
    method ChangeImage()
      requires Valid()
      modifies this
      ensures Valid()
      ensures appState == Upload && originalImage == old(originalImage)
      ensures selectedScenarios == old(selectedScenarios)
      ensures generatedResults == old(generatedResults) && isGenerating == old(isGenerating)
    {
      appState := Upload;
    }
  }
}
