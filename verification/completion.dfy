/** The conversation-item handler registered in neurality_voice_agent.py: on an assistant
    message announcing the summary, cut out the JSON payload, parse it and overwrite
    `output.json` with it. */
module Completion {
  import opened Wrappers
  import opened Text
  import BraceSpan

  /** The phrase the handler looks for. The agent's prompt asks for the JSON summary followed
      by "Your appointment has been scheduled." and never for this phrase, so the handler
      fires only when the model happens to say it. */
  const Sentinel := "Here is the summary of your request"

  const AssistantRole := "assistant"

  /** One item added to the conversation: who said it and what was said. */
  datatype ConversationItem = ConversationItem(role: string, textContent: string)

  /** The item is a summary announcement: said by the assistant and containing the sentinel,
      compared case-sensitively. */
  predicate IsSummaryItem(item: ConversationItem)
  {
    item.role == AssistantRole && Contains(item.textContent, Sentinel)
  }

  /** Why a summary announcement produced no file: the `ValueError` for a missing brace span,
      or the `json.loads` failure. Both are caught and only printed. */
  datatype Failure = NoJsonFound | MalformedJson

  /** What handling one item does to the outside world. `Saved` is the only outcome that
      writes `output.json`. */
  datatype Outcome<J> = Ignored | Failed(reason: Failure) | Saved(payload: J)

  /** The handler. `parse` stands for `json.loads`: `None` where it raises. */
  function HandleConversationItem<J>(item: ConversationItem, parse: string -> Option<J>): (r: Outcome<J>)
    ensures r.Ignored? <==> !(item.role == AssistantRole && Occurs(item.textContent, Sentinel))
    ensures r == Failed(NoJsonFound) <==>
      IsSummaryItem(item) && forall i: nat, j: nat :: !BraceSpan.PatternMatches(item.textContent, i, j)
    ensures r.Saved? ==>
      exists sp :: BraceSpan.IsSearchResult(item.textContent, sp)
        && parse(item.textContent[sp.start..sp.stop]) == Some(r.payload)
  {
    ContainsMeansOccurs(item.textContent, Sentinel);
    if !IsSummaryItem(item) then Ignored
    else
      match BraceSpan.Extract(item.textContent)
      case None => Failed(NoJsonFound)
      case Some(text) =>
        match parse(text)
        case None => Failed(MalformedJson)
        case Some(p) => Saved(p)
  }

  /** An item not written by the assistant never triggers extraction, whatever it says. */
  lemma NonAssistantNeverTriggers<J>(item: ConversationItem, parse: string -> Option<J>)
    requires item.role != AssistantRole
    ensures HandleConversationItem(item, parse) == Ignored
  {
  }

  /** The file is written exactly when the item is a summary announcement, its text has a `{`
      before a `}`, and the extracted span parses; what is written is the parse of that span. */
  lemma SavedIff<J>(item: ConversationItem, parse: string -> Option<J>)
    ensures HandleConversationItem(item, parse).Saved? <==>
      && IsSummaryItem(item)
      && BraceSpan.Extract(item.textContent).Some?
      && parse(BraceSpan.Extract(item.textContent).value).Some?
    ensures HandleConversationItem(item, parse).Saved? ==>
      Some(HandleConversationItem(item, parse).payload) == parse(BraceSpan.Extract(item.textContent).value)
  {
  }

  /** Content of `output.json` after a run of handler outcomes, starting from `file`: the
      payload of the last `Saved` outcome, or `file` when nothing saved. Every save overwrites
      the file; nothing stops a later summary from saving again. */
  function FileAfter<J>(outcomes: seq<Outcome<J>>, file: Option<J>): (r: Option<J>)
    ensures (forall k :: 0 <= k < |outcomes| ==> !outcomes[k].Saved?) ==> r == file
    ensures forall k ::
      (0 <= k < |outcomes| && outcomes[k].Saved? && forall m :: k < m < |outcomes| ==> !outcomes[m].Saved?)
      ==> r == Some(outcomes[k].payload)
    decreases |outcomes|
  {
    if |outcomes| == 0 then file
    else
      var n := |outcomes| - 1;
      if outcomes[n].Saved? then Some(outcomes[n].payload)
      else
        var front := outcomes[..n];
        assert forall k :: 0 <= k < n ==> front[k] == outcomes[k];
        FileAfter(front, file)
  }

  /** No once-per-session guard: the handler keeps no state, so when two summary items both
      save, the second one's payload overwrites the first in the file. */
  lemma SecondSummaryOverwritesFirst<J>(first: ConversationItem, second: ConversationItem,
                                        parse: string -> Option<J>, file: Option<J>)
    requires HandleConversationItem(first, parse).Saved? && HandleConversationItem(second, parse).Saved?
    ensures FileAfter([HandleConversationItem(first, parse), HandleConversationItem(second, parse)], file)
      == Some(HandleConversationItem(second, parse).payload)
  {
  }
}
