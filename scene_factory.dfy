/** The engine's scene factory: a closed, exact-match dispatch from a scene
    identifier to a freshly constructed and initialized scene. */
module SceneFactory {
  import opened Wrappers

  /** The scene variants the factory knows how to build. */
  datatype SceneKind = TestScene | TitleScene | GamePlayScene

  /** A constructed scene: its variant and how many times its Initialize
      entry point has run. The variants' own Initialize bodies are abstract:
      their only modelled effect is that one more call has happened. */
  datatype Scene = Scene(kind: SceneKind, initializeCalls: nat)

  /** The identifier that selects each variant. */
  function SceneName(kind: SceneKind): string
  {
    match kind
    case TestScene => "TEST"
    case TitleScene => "TITLE"
    case GamePlayScene => "GAMEPLAY"
  }

  /** `new XScene()`: a scene on which Initialize has not run yet. */
  function Construct(kind: SceneKind): Scene
  {
    Scene(kind, 0)
  }

  /** `scene->Initialize()`, seen from the factory. */
  function Initialize(scene: Scene): Scene
  {
    scene.(initializeCalls := scene.initializeCalls + 1)
  }

  /** None stands for the null pointer returned for an unknown identifier. */
  function CreateScene(sceneName: string): (r: Option<Scene>)
    ensures r.Some? ==> SceneName(r.value.kind) == sceneName
    ensures r.None? ==> forall kind: SceneKind :: SceneName(kind) != sceneName
    ensures r.Some? ==> r.value.initializeCalls == 1
  {
    if sceneName == "TEST" then
      Some(Initialize(Construct(TestScene)))
    else if sceneName == "TITLE" then
      Some(Initialize(Construct(TitleScene)))
    else if sceneName == "GAMEPLAY" then
      Some(Initialize(Construct(GamePlayScene)))
    else
      None
  }

  /** Each recognized identifier yields its own variant, initialized once. */
  lemma CreateSceneByName(kind: SceneKind)
    ensures CreateScene(SceneName(kind)) == Some(Scene(kind, 1))
  {
  }

  /** No two variants share an identifier, so at most one branch of the
      dispatch is taken and at most one scene is constructed per call. */
  lemma SceneNamesDistinct(k1: SceneKind, k2: SceneKind)
    ensures SceneName(k1) == SceneName(k2) <==> k1 == k2
  {
  }

  /** Matching is exact: other spellings, including case variants and
      surrounding blanks, yield null. */
  lemma ExactMatchOnly()
    ensures CreateScene("title") == None
    ensures CreateScene("Title") == None
    ensures CreateScene("test") == None
    ensures CreateScene("GamePlay") == None
    ensures CreateScene(" TITLE") == None
    ensures CreateScene("") == None
  {
  }
}
