/** The working memory of a session: what its turns leave for the flush. */
module WorkingMemory {
  import opened Prelude
  import opened Registers
  import opened ThreadStack

  datatype TurnNote = TurnNote(
    session: nat,
    number: nat,
    threads: seq<string>,
    register: Register,
    corrected: bool,
    topics: seq<string>,
    movements: seq<string>,
    artifacts: seq<string>,
    notable: bool,
    text: Option<string>)

  datatype Memory = Memory(
    session: nat,
    turnCount: nat,
    notes: seq<TurnNote>,
    artifacts: seq<string>,
    contradictions: seq<string>,
    inquiries: seq<string>,
    stack: seq<Entry>,
    floating: seq<Entry>,
    shadow: seq<Correction>)

  function NewMemory(session: nat): Memory {
    Memory(session, 0, [], [], [], [], [], [], [])
  }
}
