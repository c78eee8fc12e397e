/** The application state: which sidebar section is shown. */
module AppSlice {
  import opened Model

  datatype AppState = AppState(content: Content)

  function Initial(): (s: AppState)
    ensures s.content == StopsTab
  {
    AppState(StopsTab)
  }

  /** `setContent`: the payload becomes the content. */
  function SetContent(s: AppState, c: Content): (r: AppState)
    ensures r.content == c
  {
    s.(content := c)
  }

  /** Setting the same content twice is setting it once. */
  lemma SetContentIdempotent(s: AppState, c: Content)
    ensures SetContent(SetContent(s, c), c) == SetContent(s, c)
  {
  }

  /** Of two successive `setContent` calls only the last one matters. */
  lemma SetContentLastWins(s: AppState, c1: Content, c2: Content)
    ensures SetContent(SetContent(s, c1), c2) == SetContent(s, c2)
  {
  }
}
