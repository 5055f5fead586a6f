/** The state the `App` component keeps for the wall, and the two
    asynchronous handlers that change it: `fetchIdeas` (bulk load) and
    `handleSubmitIdea` (submit one draft). Each handler is split at its
    `await` into a Begin and a Complete step; the Supabase response that the
    `await` delivers is the Complete step's parameter. */
module IdeaBoard {
  import opened Text
  import opened IdeaModel
  import opened IdeaFilter
  import opened IdeaStats

  /** What a Supabase query resolves to: an error, or data that may be null. */
  datatype Response<T> = Failed | Succeeded(data: Option<T>)

  const LoadFailedMessage: string := "載入想法失敗，請稍後再試"
  const SubmitFailedMessage: string := "送出失敗，請稍後再試"

  class Board {
    var ideas: seq<Idea>
    var loading: bool
    var submitting: bool
    var error: Option<string>
    var newIdea: string
    var filter: Filter
    var search: string

    /** The component's initial state. */
    constructor ()
      ensures ideas == [] && loading && !submitting && error == None
      ensures newIdea == "" && filter == All && search == ""
    {
      ideas := [];
      loading := true;
      submitting := false;
      error := None;
      newIdea := "";
      filter := All;
      search := "";
    }

    /** The list under the toolbar for the current filter, search and day. */
    function Visible(startOfToday: int): (r: seq<Idea>)
      reads this
      ensures IsSubsequence(r, ideas)
    {
      FilteredIsSubsequence(ideas, filter, search, startOfToday);
      FilteredIdeas(ideas, filter, search, startOfToday)
    }

    /** The draft box's `onChange`. */
    method EditDraft(text: string)
      modifies this
      ensures newIdea == text
      ensures ideas == old(ideas) && loading == old(loading) && submitting == old(submitting)
      ensures error == old(error) && filter == old(filter) && search == old(search)
    {
      newIdea := text;
    }

    /** The toolbar's filter pills and search box. */
    method SetView(f: Filter, s: string)
      modifies this
      ensures filter == f && search == s
      ensures ideas == old(ideas) && loading == old(loading) && submitting == old(submitting)
      ensures error == old(error) && newIdea == old(newIdea)
    {
      filter := f;
      search := s;
    }

    /** `fetchIdeas` up to its `await`: show the spinner, clear the error. */
    method BeginFetch()
      modifies this
      ensures loading && error == None
      ensures ideas == old(ideas) && submitting == old(submitting)
      ensures newIdea == old(newIdea) && filter == old(filter) && search == old(search)
    {
      loading := true;
      error := None;
    }

    /** `fetchIdeas` after its `await`: on success the list is replaced
        wholesale (by `[]` when the data is null); on failure it is kept and
        the load error is shown. Either way loading ends. */
    method CompleteFetch(response: Response<seq<Idea>>)
      modifies this
      ensures !loading
      ensures response.Failed? ==> ideas == old(ideas) && error == Some(LoadFailedMessage)
      ensures response.Succeeded? ==> error == old(error)
      ensures response.Succeeded? && response.data.Some? ==> ideas == response.data.value
      ensures response.Succeeded? && response.data.None? ==> ideas == []
      ensures submitting == old(submitting) && newIdea == old(newIdea)
      ensures filter == old(filter) && search == old(search)
    {
      match response {
        case Failed =>
          error := Some(LoadFailedMessage);
        case Succeeded(data) =>
          ideas := if data.Some? then data.value else [];
      }
      loading := false;
    }

    /** The whole of `fetchIdeas` when nothing else runs during the `await`. */
    method Fetch(response: Response<seq<Idea>>)
      modifies this
      ensures !loading
      ensures response.Failed? ==> ideas == old(ideas) && error == Some(LoadFailedMessage)
      ensures response.Succeeded? ==> error == None
      ensures response.Succeeded? ==> ideas == (if response.data.Some? then response.data.value else [])
      ensures submitting == old(submitting) && newIdea == old(newIdea)
      ensures filter == old(filter) && search == old(search)
    {
      BeginFetch();
      CompleteFetch(response);
    }

    /** `handleSubmitIdea` up to its `await`. A draft that trims to nothing
        changes nothing and sends nothing; otherwise the trimmed draft is
        what gets inserted, the button is disabled and the error cleared. */
    method BeginSubmit() returns (sent: Option<string>)
      modifies this
      ensures IsBlank(old(newIdea)) ==> sent == None
      ensures IsBlank(old(newIdea)) ==> submitting == old(submitting) && error == old(error)
      ensures !IsBlank(old(newIdea)) ==> sent == Some(Trim(old(newIdea))) && sent.value != []
      ensures !IsBlank(old(newIdea)) ==> submitting && error == None
      ensures ideas == old(ideas) && loading == old(loading) && newIdea == old(newIdea)
      ensures filter == old(filter) && search == old(search)
    {
      var trimmed := Trim(newIdea);
      if trimmed == [] {
        return None;
      }
      submitting := true;
      error := None;
      sent := Some(trimmed);
    }

    /** `handleSubmitIdea` after its `await`. The returned row goes on top of
        the list, unconditionally (no check on its id), and the draft is
        cleared; an error keeps list and draft and shows the submit error;
        a success without data changes neither. Either way submitting ends. */
    method CompleteSubmit(response: Response<Idea>)
      modifies this
      ensures !submitting
      ensures response.Failed? ==> ideas == old(ideas) && newIdea == old(newIdea)
      ensures response.Failed? ==> error == Some(SubmitFailedMessage)
      ensures response.Succeeded? ==> error == old(error)
      ensures response.Succeeded? && response.data.Some? ==>
                ideas == [response.data.value] + old(ideas) && newIdea == ""
      ensures response.Succeeded? && response.data.None? ==>
                ideas == old(ideas) && newIdea == old(newIdea)
      ensures loading == old(loading) && filter == old(filter) && search == old(search)
    {
      match response {
        case Failed =>
          error := Some(SubmitFailedMessage);
        case Succeeded(data) =>
          if data.Some? {
            ideas := [data.value] + ideas;
            newIdea := "";
          }
      }
      submitting := false;
    }

    /** The whole of `handleSubmitIdea` when nothing else runs during the
        `await`; `response` is only consulted when something was sent. */
    method Submit(response: Response<Idea>) returns (sent: Option<string>)
      modifies this
      ensures IsBlank(old(newIdea)) ==> sent == None
      ensures IsBlank(old(newIdea)) ==>
                ideas == old(ideas) && newIdea == old(newIdea) &&
                error == old(error) && submitting == old(submitting)
      ensures !IsBlank(old(newIdea)) ==> sent == Some(Trim(old(newIdea))) && !submitting
      ensures !IsBlank(old(newIdea)) && response.Failed? ==>
                ideas == old(ideas) && newIdea == old(newIdea) && error == Some(SubmitFailedMessage)
      ensures !IsBlank(old(newIdea)) && response.Succeeded? && response.data.Some? ==>
                ideas == [response.data.value] + old(ideas) && newIdea == "" && error == None
      ensures !IsBlank(old(newIdea)) && response.Succeeded? && response.data.None? ==>
                ideas == old(ideas) && newIdea == old(newIdea) && error == None
      ensures loading == old(loading) && filter == old(filter) && search == old(search)
    {
      sent := BeginSubmit();
      if sent.Some? {
        CompleteSubmit(response);
      }
    }
  }

  /** A newly submitted idea heads the view exactly when it passes the
      current filter and search; below it the view is what it was. This is
      the definition of `FilteredIdeas` applied to a prepended list. */
  lemma SubmittedIdeaHeadsView(prev: seq<Idea>, d: Idea, filter: Filter, search: string, startOfToday: int)
    ensures FilteredIdeas([d] + prev, filter, search, startOfToday)
         == (if Keep(d, filter, search, startOfToday) then [d] else [])
            + FilteredIdeas(prev, filter, search, startOfToday)
  {
  }

  /** The counters above the wall agree with the toolbar: with a blank
      search, the total, "week" and "today" views have exactly as many
      ideas as `getStats` counts. */
  lemma {:induction false} StatsAgreeWithViews(ideas: seq<Idea>, search: string, startOfToday: int)
    requires IsBlank(search)
    ensures StatsOf(ideas, startOfToday).total == |FilteredIdeas(ideas, All, search, startOfToday)|
    ensures StatsOf(ideas, startOfToday).weekCount == |FilteredIdeas(ideas, Week, search, startOfToday)|
    ensures StatsOf(ideas, startOfToday).todayCount == |FilteredIdeas(ideas, Today, search, startOfToday)|
    decreases |ideas|
  {
    FilteredAllBlankIsIdentity(ideas, search, startOfToday);
    if ideas != [] {
      StatsAgreeWithViews(ideas[1..], search, startOfToday);
    }
  }

  /** A row the server returns twice is listed twice: `handleSubmitIdea`
      prepends without looking at ids. */
  method ResubmittedRowIsListedTwice(x: Idea, y: Idea)
  {
    var b := new Board();
    b.Fetch(Succeeded(Some([x, y])));
    b.EditDraft("hello");
    var sent := b.Submit(Succeeded(Some(x)));
    assert !IsBlank("hello") by { assert !IsWhitespace("hello"[0]); }
    assert b.ideas == [x, x, y];
    assert b.newIdea == "" && !b.submitting;
  }
}
