/** What several modules share: the optional value, and how a wrapped store call ends. */
module Outcomes {

  datatype Option<+T> = None | Some(value: T)

  /**
   How a store call under the retry decorator ends, apart from whether its condition held. For a
   replacement these are all the ways, and for a creation too as long as nobody deletes the document
   meanwhile: `CallIsOneStep` of VersionedStore. Otherwise a creation is several such steps.
   */
  datatype Fate =
    | Answered     // the caller sees what the server decided
    | LostRefused  // performed, answer lost, and the blind repeat was refused
    | LostRaised   // performed, answer lost, and the retries ran out
    | Unsent       // nothing reached the server, and the retries ran out

  method AnyFate() returns (fate: Fate) {
    fate := *;
  }
}
