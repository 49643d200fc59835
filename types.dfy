/** The records and the phase enumeration shared by every component. */
module Types {
  import opened Wrappers

  /** A placement template of the catalog; immutable. */
  datatype Scenario = Scenario(
    id: string,
    name: string,
    description: string,
    promptTemplate: string,
    icon: string)

  /** One generated asset. Only `imageUrl` changes after creation (by edits);
      `isLoading` is optional in the source and never set by this core. */
  datatype GeneratedImage = GeneratedImage(
    id: string,
    originalImageBase64: string,
    imageUrl: string,
    scenarioName: string,
    promptUsed: string,
    timestamp: int,
    isLoading: Option<bool>)

  /** The three screens of the application. */
  datatype AppState = Upload | SelectScenario | Results
}
