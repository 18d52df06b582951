/**
 * The recipe form's request lifecycle (src/App.tsx, lines 9-67): four pieces
 * of component state, the `handleSubmit` handler that clears them, sends the
 * parsed ingredients to the model query and settles on exactly one of four
 * paths, and the rule that renders them.
 *
 * The query itself is not modelled: how it settled is an input (`Outcome`).
 * `handleSubmit` suspends at its one `await`, so it is modelled as `Begin`
 * (everything before the await) followed by `Settle` (everything after it).
 */
module RecipeApp {
  import opened Wrappers
  import opened JsString
  import Ingredients

  /** The query's data payload: two nullable strings. */
  datatype Payload = Payload(body: Option<string>, error: Option<string>)

  /** How `await client.queries.askBedrock({ ingredients })` settled. */
  datatype Outcome =
      /** Resolved with `{ data, errors }`; each error is given by its `message`. */
    | Returned(errors: Option<seq<string>>, data: Option<Payload>)
      /** Rejected with a value that is not null or undefined: its `message`
          property (absent when null or undefined) and what `String(err)` gives. */
    | Threw(message: Option<string>, asString: string)
      /** Rejected with null or undefined. */
    | ThrewNullish

  /** The component's four `useState` hooks. */
  datatype State = State(ingredientsInput: string, loading: bool, result: Option<string>, error: Option<string>)

  /** The state hooks start as `""`, `false`, `null`, `null`. */
  const Initial: State := State("", false, None, None)

  const NoResponse: string := "No response from model."
  const NoData: string := "No data returned from API."

  /** JavaScript truthiness of a nullable string: non-null and non-empty. */
  predicate Truthy(v: Option<string>) {
    v.Some? && v.value != ""
  }

  /** `a || b` on nullable strings. */
  function OrElse(a: Option<string>, b: Option<string>): Option<string> {
    if Truthy(a) then a else b
  }

  /** `a || b` where `b` is a string literal. */
  function Or(a: Option<string>, b: string): string {
    if Truthy(a) then a.value else b
  }

  /** `a ?? b`: only null and undefined fall back. */
  function Coalesce(a: Option<string>, b: string): string {
    if a.Some? then a.value else b
  }

  /** `errors && errors.length`: present and non-empty. */
  predicate HasErrors(errors: Option<seq<string>>) {
    errors.Some? && |errors.value| > 0
  }

  /** At rest, at most one of `result` and `error` is set, a set `result` is
      never empty, and while the request is in flight both are cleared. */
  predicate Consistent(st: State) {
    !(st.result.Some? && st.error.Some?) &&
    (st.result.Some? ==> st.result.value != "") &&
    (st.loading ==> st.result == None && st.error == None)
  }

  /** The state at the `await` (lines 16-19). */
  function Start(st: State): State {
    st.(loading := true, result := None, error := None)
  }

  /** What the settled `handleSubmit` leaves behind, and whether its promise
      rejects (a null or undefined exception makes `err.message` throw inside
      the `catch` block, after which only the `finally` block runs). */
  datatype Settlement = Settlement(state: State, rejected: bool)

  /** Lines 29-39, applied to the state found when the query settles. */
  function Resolve(st: State, reply: Outcome): (out: Settlement)
    ensures !out.state.loading && out.state.ingredientsInput == st.ingredientsInput
    ensures out.rejected <==> reply.ThrewNullish?
    ensures out.state.result == st.result || out.state.error == st.error
    ensures out.state.result != st.result ==> reply.Returned? && Truthy(out.state.result)
  {
    var settled := st.(loading := false);
    match reply
    case Returned(errors, data) =>
      if HasErrors(errors) then
        Settlement(settled.(error := Some(Join(errors.value, ", "))), false)
      else if data.Some? then
        Settlement(settled.(result := Some(Or(OrElse(data.value.body, data.value.error), NoResponse))), false)
      else
        Settlement(settled.(error := Some(NoData)), false)
    case Threw(message, asString) =>
      Settlement(settled.(error := Some(Coalesce(message, asString))), false)
    case ThrewNullish =>
      Settlement(settled, true)
  }

  /** One whole `handleSubmit` whose query settles with `reply` (lines 15-41). */
  function AfterSubmit(st: State, reply: Outcome): (out: Settlement)
    ensures Consistent(out.state) && !out.state.loading
    ensures out.state.ingredientsInput == st.ingredientsInput
    ensures out.rejected <==> reply.ThrewNullish?
    ensures out.state.result.Some? ==> reply.Returned? && !HasErrors(reply.errors) && reply.data.Some?
    ensures reply.ThrewNullish? ==> out.state.result == None && out.state.error == None
  {
    Resolve(Start(st), reply)
  }

  /** Earlier values are cleared: the outcome depends on the input text and
      the reply only, never on the previous `loading`, `result` or `error`. */
  lemma SubmitForgetsPrevious(st: State, reply: Outcome)
    ensures AfterSubmit(st, reply) == AfterSubmit(Initial.(ingredientsInput := st.ingredientsInput), reply)
  {
  }

  /** A non-empty error list wins, whatever `data` holds (lines 29-30). */
  lemma ErrorListWins(st: State, messages: seq<string>, data: Option<Payload>)
    requires |messages| > 0
    ensures var out := AfterSubmit(st, Returned(Some(messages), data));
      out.state.error == Some(Join(messages, ", ")) && out.state.result == None && !out.rejected
  {
  }

  /** With no errors (absent or an empty list), a payload gives a result:
      its `body` if non-empty, else its `error` if non-empty, else the fixed
      message; `error` stays null (lines 31-32). */
  lemma PayloadGivesResult(st: State, errors: Option<seq<string>>, p: Payload)
    requires errors == None || errors == Some([])
    ensures var out := AfterSubmit(st, Returned(errors, Some(p)));
      out.state.error == None && !out.rejected &&
      out.state.result == Some(
        if p.body.Some? && p.body.value != "" then p.body.value
        else if p.error.Some? && p.error.value != "" then p.error.value
        else NoResponse) &&
      out.state.result.value != ""
  {
  }

  /** Neither errors nor data: the fixed error message (lines 33-34). */
  lemma NoDataIsError(st: State, errors: Option<seq<string>>)
    requires errors == None || errors == Some([])
    ensures var out := AfterSubmit(st, Returned(errors, None));
      out.state.error == Some(NoData) && out.state.result == None && !out.rejected
  {
  }

  /** An exception with a `message` shows that message, even an empty one;
      without one it shows `String(err)` (lines 36-37). */
  lemma ExceptionShowsMessage(st: State, message: Option<string>, asString: string)
    ensures var out := AfterSubmit(st, Threw(message, asString));
      out.state.error == Some(if message.Some? then message.value else asString) &&
      out.state.result == None && !out.rejected
  {
  }

  /** What the page shows (lines 54-64). */
  datatype Screen = Screen(buttonDisabled: bool, buttonLabel: string, errorText: Option<string>, resultText: Option<string>)

  function Render(st: State): (screen: Screen) {
    Screen(
      st.loading,
      if st.loading then "Generating..." else "Generate Recipe",
      if Truthy(st.error) then st.error else None,
      if Truthy(st.result) then st.result else None)
  }

  /** While the query is in flight the button is disabled, labelled as busy,
      and nothing else is shown. */
  lemma RenderWhileLoading(st: State)
    ensures Render(Start(st)) == Screen(true, "Generating...", None, None)
  {
  }

  /** After a submission the button is enabled again, at most one of the two
      blocks shows, and a result, when there is one, is always shown. */
  lemma RenderAfterSubmit(st: State, reply: Outcome)
    ensures var out := AfterSubmit(st, reply).state; var screen := Render(out);
      !screen.buttonDisabled && screen.buttonLabel == "Generate Recipe" &&
      !(screen.errorText.Some? && screen.resultText.Some?) &&
      screen.resultText == out.result
  {
  }

  /** An exception whose `message` is the empty string is recorded, but the
      page shows neither an error nor a result. */
  lemma EmptyMessageShowsNothing(st: State, asString: string)
    ensures var out := AfterSubmit(st, Threw(Some(""), asString)).state;
      out.error == Some("") && Render(out).errorText == None && Render(out).resultText == None
  {
  }

  /** Two overlapping submissions: if the later one settles first with a
      body and the earlier one then throws, nothing clears the first
      settlement's result, so both `result` and `error` end up set. */
  lemma OverlapKeepsBoth(st: State, body: string, message: string, asString: string)
    requires body != ""
    ensures var inFlight := Start(Start(st));
      var second := Resolve(inFlight, Returned(None, Some(Payload(Some(body), None))));
      var first := Resolve(second.state, Threw(Some(message), asString));
      first.state.result == Some(body) && first.state.error == Some(message) &&
      !Consistent(first.state)
  {
  }

  /** The component: its state hooks as fields. */
  class App {
    var ingredientsInput: string
    var loading: bool
    var result: Option<string>
    var error: Option<string>

    function Snapshot(): State
      reads this
    {
      State(ingredientsInput, loading, result, error)
    }

    ghost predicate Valid()
      reads this
    {
      Consistent(Snapshot())
    }

    /** The `useState` initial values (lines 10-13). */
    constructor ()
      ensures Snapshot() == Initial && Valid()
    {
      ingredientsInput, loading, result, error := "", false, None, None;
    }

    /** The input's `onChange` (line 52). */
    method SetIngredientsInput(value: string)
      modifies this
      ensures Snapshot() == old(Snapshot()).(ingredientsInput := value)
      ensures old(Valid()) ==> Valid()
    {
      ingredientsInput := value;
    }

    /** `handleSubmit` up to the `await` (lines 16-27): clears the state and
        returns the ingredient list the query is sent. */
    method Begin() returns (ingredients: seq<string>)
      modifies this
      ensures Snapshot() == Start(old(Snapshot())) && Valid()
      ensures ingredients == Ingredients.Parse(ingredientsInput)
    {
      loading := true;
      result := None;
      error := None;
      assert Snapshot() == Start(old(Snapshot()));
      ingredients := Ingredients.Parse(ingredientsInput);
    }

    /** `handleSubmit` after the `await` (lines 29-39); `rejected` tells
        whether the handler's own promise rejects. */
    method Settle(reply: Outcome) returns (rejected: bool)
      modifies this
      ensures Resolve(old(Snapshot()), reply) == Settlement(Snapshot(), rejected)
      ensures old(loading) && old(Valid()) ==> Valid()
    {
      rejected := false;
      match reply {
        case Returned(errors, data) =>
          if HasErrors(errors) {
            error := Some(Join(errors.value, ", "));
          } else if data.Some? {
            result := Some(Or(OrElse(data.value.body, data.value.error), NoResponse));
          } else {
            error := Some(NoData);
          }
        case Threw(message, asString) =>
          error := Some(Coalesce(message, asString));
        case ThrewNullish =>
          rejected := true;
      }
      loading := false;
    }

    /** The whole handler (lines 15-41). */
    method HandleSubmit(reply: Outcome) returns (ingredients: seq<string>, rejected: bool)
      modifies this
      ensures AfterSubmit(old(Snapshot()), reply) == Settlement(Snapshot(), rejected)
      ensures ingredients == Ingredients.Parse(old(ingredientsInput))
      ensures Valid() && !loading && ingredientsInput == old(ingredientsInput)
    {
      ingredients := Begin();
      rejected := Settle(reply);
    }
  }
}
