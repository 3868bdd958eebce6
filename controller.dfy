/** The script's module-level state and the handlers that change it: the
    record collection, the selected navigation filter, the two inputs the
    list reads, and what the page shows. */
module Controller {
  import opened Wrappers
  import opened Calendar
  import opened Records
  import opened View

  /** What the page shows for a state: one card per record of the derived
      list, and the empty state exactly when that list is empty. */
  predicate Displayed(records: seq<Prediction>, filterName: string, searchValue: string,
                      limitValue: string, clock: Clock, cards: seq<Prediction>, emptyStateVisible: bool)
  {
    && cards == DerivedView(records, filterName, searchValue, limitValue, clock)
    && (emptyStateVisible <==> cards == [])
  }

  /** The end of `render`: derive the list, then either clear the cards and
      show the empty state, or hide the empty state and show one card per
      record. */
  method Display(records: seq<Prediction>, filterName: string, searchValue: string,
                 limitValue: string, clock: Clock) returns (cards: seq<Prediction>, emptyStateVisible: bool)
    ensures Displayed(records, filterName, searchValue, limitValue, clock, cards, emptyStateVisible)
  {
    var items := DeriveView(records, filterName, searchValue, limitValue, clock);
    if |items| == 0 {
      cards := [];
      emptyStateVisible := true;
      return;
    }
    emptyStateVisible := false;
    cards := items;
  }

  /** The page state `render` reads and writes. The list of cards stands for
      the markup of the predictions container, one card per record, and
      `emptyStateVisible` for the empty-state element not being hidden. */
  class PredictionList {
    /** `sampleData`, fixed when the script starts. */
    const sampleData: seq<Prediction>
    var dataStore: seq<Prediction>
    var currentFilter: string
    var searchValue: string
    var limitValue: string
    var cards: seq<Prediction>
    var emptyStateVisible: bool

    /** The state before the first load: no records and the `all` filter. The
        sample records take the match times `d1` to `d5`, and the inputs start
        with the values the page gives them. */
    constructor (search: string, limit: string, d1: Timestamp, d2: Timestamp, d3: Timestamp, d4: Timestamp, d5: Timestamp)
      ensures sampleData == SampleData(d1, d2, d3, d4, d5)
      ensures dataStore == [] && currentFilter == "all"
      ensures searchValue == search && limitValue == limit
      ensures cards == [] && !emptyStateVisible
    {
      sampleData := SampleData(d1, d2, d3, d4, d5);
      dataStore := [];
      currentFilter := "all";
      searchValue := search;
      limitValue := limit;
      cards := [];
      emptyStateVisible := false;
    }

    /** `render`: derive the list and show it, or clear it and show the empty
        state when nothing is left. */
    method Render(clock: Clock)
      modifies this`cards, this`emptyStateVisible
      ensures Displayed(dataStore, currentFilter, searchValue, limitValue, clock, cards, emptyStateVisible)
    {
      cards, emptyStateVisible := Display(dataStore, currentFilter, searchValue, limitValue, clock);
    }

    /** `loadPredictions`: show a copy of the samples at once, then replace
        them by the normalised payload when the endpoint answers with status
        `"ok"` and an array of predictions none of which is `null` or
        `undefined`, and render again. Any other outcome keeps the samples.
        `first` and `second` are the instants of the two renders. */
    method LoadPredictions(outcome: FetchOutcome, first: Clock, second: Clock)
      modifies this`dataStore, this`cards, this`emptyStateVisible
      ensures var payload := if Accepted(outcome) then Objects(outcome.predictions.value) else None;
              && dataStore == (if payload.Some? then Normalize(payload.value) else sampleData)
              && Displayed(dataStore, currentFilter, searchValue, limitValue,
                           if payload.Some? then second else first, cards, emptyStateVisible)
    {
      dataStore := sampleData;
      Render(first);
      if outcome.Received? && outcome.status == Some("ok") && outcome.predictions.Some? {
        var payload := Objects(outcome.predictions.value);
        if payload.Some? {
          dataStore := Normalize(payload.value);
          Render(second);
        }
      }
    }

    /** A navigation button click: select the button's `data-filter` value,
        or `all` when it is missing or empty, and render. */
    method SelectFilter(tag: Option<string>, clock: Clock)
      modifies this`currentFilter, this`cards, this`emptyStateVisible
      ensures currentFilter == if tag == None || tag == Some("") then "all" else tag.value
      ensures Displayed(dataStore, currentFilter, searchValue, limitValue, clock, cards, emptyStateVisible)
    {
      currentFilter := if tag.Some? && tag.value != "" then tag.value else "all";
      Render(clock);
    }

    /** The search box's `input` event: the new text is read by the next
        render (the debounce delay is not modelled). */
    method Search(text: string, clock: Clock)
      modifies this`searchValue, this`cards, this`emptyStateVisible
      ensures searchValue == text
      ensures Displayed(dataStore, currentFilter, searchValue, limitValue, clock, cards, emptyStateVisible)
    {
      searchValue := text;
      Render(clock);
    }

    /** The limit selector's `change` event. */
    method ChangeLimit(value: string, clock: Clock)
      modifies this`limitValue, this`cards, this`emptyStateVisible
      ensures limitValue == value
      ensures Displayed(dataStore, currentFilter, searchValue, limitValue, clock, cards, emptyStateVisible)
    {
      limitValue := value;
      Render(clock);
    }
  }
}
