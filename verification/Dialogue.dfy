/** Conversation state and the turn contract. */
module Dialogue {
  import opened Sequences

  datatype Action = Answer | Clarify | Handoff | Refuse

  datatype Register = Masri | Msa | English

  type Slots = map<string, string>

  datatype Turn = Turn(
    intent: Option<string>,
    slots: Slots,
    confidence: Option<real>,
    grounded: bool,
    handoffRequested: bool,
    cleared: set<string>,
    language: Option<string>)

  datatype State = State(
    scriptId: string,
    version: int,
    node: Option<string>,
    slots: Slots,
    clarifications: nat,
    quotedUnit: Option<string>)
  {
    /** New slots over the held ones, minus what was cleared. A slot both
        cleared and set keeps its new value. */
    function WithSlots(added: Slots, cleared: set<string>): State {
      this.(slots := (slots - cleared) + added)
    }

    function CountClarification(at: string): State {
      this.(node := Some(at), clarifications := clarifications + 1)
    }

    function ResetClarifications(at: string): State {
      this.(node := Some(at), clarifications := 0)
    }
  }

  datatype Decision = Decision(
    action: Action,
    register: Register,
    node: string,
    state: State,
    missing: seq<string>,
    askForSlot: Option<string>,
    groundingRequired: bool,
    gateClosed: bool)
}
