/**
 * The lifecycle of a page: `InitializedState`, `FetchedState`,
 * `AnalyzedState` and `TranslatedState`, as a table from (state, operation)
 * to what that state's method does.
 */
module States {

  datatype StateTag = Initialized | Fetched | Analyzed | Translated

  datatype Operation = Fetch | Analyze | Translate

  /** What a state's method does: move on, throw IllegalStateException, or (for `fetch`) nothing is declared. */
  datatype Transition =
    | Proceed(next: StateTag)
    | Reject(message: string)
    | Unimplemented

  const AlreadyFetched: string := "Webpage is already fetched."
  const AlreadyAnalyzed: string := "Webpage is already analyzed."
  const AlreadyTranslated: string := "Webpage is already translated."
  const NotYetAnalyzed: string := "Webpage has to be analyzed prior to translation."

  /** The per-state method bodies, one row per state class. */
  function Dispatch(s: StateTag, op: Operation): Transition {
    match (s, op)
    case (Initialized, Fetch) => Unimplemented
    case (Initialized, Analyze) => Proceed(Analyzed)
    case (Initialized, Translate) => Reject(NotYetAnalyzed)
    case (Fetched, Fetch) => Reject(AlreadyFetched)
    case (Fetched, Analyze) => Proceed(Analyzed)
    case (Fetched, Translate) => Reject(NotYetAnalyzed)
    case (Analyzed, Fetch) => Unimplemented
    case (Analyzed, Analyze) => Reject(AlreadyAnalyzed)
    case (Analyzed, Translate) => Proceed(Translated)
    case (Translated, Fetch) => Unimplemented
    case (Translated, Analyze) => Reject(AlreadyAnalyzed)
    case (Translated, Translate) => Reject(AlreadyTranslated)
  }

  /** Only `InitializedState.analyze` loads the document before extracting from it. */
  predicate LoadsDocument(s: StateTag) {
    s == Initialized
  }

  /** Position in the lifecycle. */
  function Rank(s: StateTag): nat {
    match s
    case Initialized => 0
    case Fetched => 1
    case Analyzed => 2
    case Translated => 3
  }

  /**
   * Every transition moves strictly forward, never into Initialized or
   * Fetched, and only `analyze` and `translate` can move at all.
   */
  lemma TransitionsMoveForward(s: StateTag, op: Operation)
    ensures Dispatch(s, op).Proceed? ==> Rank(Dispatch(s, op).next) > Rank(s)
    ensures Dispatch(s, op).Proceed? ==> Dispatch(s, op).next !in {Initialized, Fetched}
    ensures Dispatch(s, op).Proceed? ==>
              (op == Analyze && Dispatch(s, op).next == Analyzed) || (op == Translate && s == Analyzed && Dispatch(s, op).next == Translated)
  {
  }

  /** Translated is terminal: both its operations throw and nothing moves it. */
  lemma TranslatedIsTerminal(op: Operation)
    ensures !Dispatch(Translated, op).Proceed?
    ensures op == Analyze ==> Dispatch(Translated, op) == Reject(AlreadyAnalyzed)
    ensures op == Translate ==> Dispatch(Translated, op) == Reject(AlreadyTranslated)
  {
  }

  /** `analyze` and `translate` are implemented in every state; `fetch` only in Fetched. */
  lemma Implemented(s: StateTag, op: Operation)
    ensures Dispatch(s, op) != Unimplemented <==> op != Fetch || s == Fetched
  {
  }

  /** Translation needs an analyzed page: it proceeds from Analyzed and from nowhere else. */
  lemma TranslateOnlyFromAnalyzed(s: StateTag)
    ensures Dispatch(s, Translate).Proceed? <==> s == Analyzed
    ensures Dispatch(s, Analyze).Proceed? <==> Rank(s) < Rank(Analyzed)
  {
  }
}
