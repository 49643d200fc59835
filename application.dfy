/** The application component of App.tsx built over the scenario table of
    constants.ts, and the batch behaviour over that table. */
module Application {
  import opened Wrappers
  import opened Types
  import GeminiService
  import App
  import Catalog

  /** The component as the page mounts it, over `SCENARIOS`. */
  method Launch() returns (app: App.AppComponent)
    ensures fresh(app) && app.Valid()
    ensures app.catalog == Catalog.Scenarios
    ensures app.appState == Upload && app.originalImage == None
    ensures app.selectedScenarios == [] && app.generatedResults == [] && !app.isGenerating
  {
    app := new App.AppComponent(Catalog.Scenarios);
  }

  /** `SCENARIOS.find(s => s.id === id)` */
  function Find(id: string): Option<Scenario> {
    App.FindScenario(Catalog.Scenarios, id)
  }

  /** Lookups of `mug` and `tshirt`. */
  lemma FindKnownIds()
    ensures Find("mug").Some? && Find("mug").value.name == "Coffee Mug"
    ensures Find("tshirt").Some? && Find("tshirt").value.name == "T-Shirt Model"
  {
    var sc := Catalog.Scenarios;
    assert sc[0].id == "mug" && sc[0].name == "Coffee Mug";
    assert sc[1].id != "tshirt" && sc[2].id == "tshirt" && sc[2].name == "T-Shirt Model";
    assert sc[1..][1..] == sc[2..];
  }

  /** A lookup succeeds exactly for the six catalog ids, and then yields the
      entry carrying that id. */
  lemma FindSucceedsIffCatalogId(id: string)
    ensures Find(id).Some? <==> id in Catalog.Ids()
    ensures Find(id).Some? ==> Find(id).value in Catalog.Scenarios && Find(id).value.id == id
  {
    if id in Catalog.Ids() {
      var i :| 0 <= i < |Catalog.Ids()| && Catalog.Ids()[i] == id;
      assert Catalog.Scenarios[i].id == id;
    }
  }

  /** An id outside the catalog is appended like any other: the toggle
      does not consult the catalog. */
  lemma ToggleIgnoresCatalog(prev: seq<string>, id: string)
    requires Find(id).None? && id !in prev
    ensures App.Toggle(prev, id) == prev + [id]
  {
  }

  /** Selecting mug then t-shirt with both calls answering with an image
      gives two results, named after the two scenarios in that order. */
  lemma MugAndTShirtBothSucceed(client: GeminiService.Client, image: string, clock: nat -> nat)
    requires Find("mug").Some? && GeminiService.GenerateOutcome(client, image, Find("mug").value.promptTemplate).Ok?
    requires Find("tshirt").Some? && GeminiService.GenerateOutcome(client, image, Find("tshirt").value.promptTemplate).Ok?
    ensures |App.BatchResults(Catalog.Scenarios, client, image, ["mug", "tshirt"], clock)| == 2
    ensures App.BatchResults(Catalog.Scenarios, client, image, ["mug", "tshirt"], clock)[0].scenarioName == "Coffee Mug"
    ensures App.BatchResults(Catalog.Scenarios, client, image, ["mug", "tshirt"], clock)[1].scenarioName == "T-Shirt Model"
  {
    FindKnownIds();
    App.TwoSucceedInOrder(Catalog.Scenarios, client, image, "mug", "tshirt", clock);
  }

  /** Selecting only the mug with its call failing gives no result. */
  lemma MugAloneFailing(client: GeminiService.Client, image: string, clock: nat -> nat)
    requires Find("mug").Some? && GeminiService.GenerateOutcome(client, image, Find("mug").value.promptTemplate).Err?
    ensures App.BatchResults(Catalog.Scenarios, client, image, ["mug"], clock) == []
  {
    FindKnownIds();
    App.AloneFailing(Catalog.Scenarios, client, image, "mug", clock);
  }
}
