/** Worked instances on the portfolio's own values (constants.tsx and the
    component's constants). */
module Fixtures {
  import opened Options
  import opened Messages
  import opened Gemini
  import opened Chat
  import opened Site

  /** The first project card without an image of its own. */
  lemma FirstStockImage()
    ensures FallbackImage(0) == ImagePrefix + "1550000000000" + ImageQuery
  {
    assert Decimal(1) == "1";
    assert Decimal(15) == "15";
    assert Decimal(155) == "155";
    assert Decimal(1550) == "1550";
    assert Decimal(15500) == "15500";
    assert Decimal(155000) == "155000";
    assert Decimal(1550000) == "1550000";
    assert Decimal(15500000) == "15500000";
    assert Decimal(155000000) == "155000000";
    assert Decimal(1550000000) == "1550000000";
    assert Decimal(15500000000) == "15500000000";
    assert Decimal(155000000000) == "155000000000";
    assert Decimal(1550000000000) == "1550000000000";
    assert FallbackImage(0) == ImagePrefix + Decimal(1550000000000) + ImageQuery;
  }

  /** Opening the widget for the first time shows the greeting and the
      suggestions; clicking the first suggestion sends it after the
      greeting. */
  lemma FirstOpening()
    ensures Open(Initial).turns == [Turn(Assistant, Greeting)]
    ensures ShowsSuggestions(Open(Initial))
    ensures Send(Open(Initial), Some(Suggestions[0]))
      == Accepted(Chat(true, [Turn(Assistant, Greeting), Turn(User, "Summarize his key skills."),
                              Turn(Assistant, "")], "", true),
                  [Turn(Assistant, Greeting), Turn(User, "Summarize his key skills.")])
  {
    SuggestionAccepted(Open(Initial), 0);
  }

  /** The history sent for that first question. */
  lemma FirstHistory()
    ensures BuildHistory([Turn(Assistant, Greeting), Turn(User, "Summarize his key skills.")])
      == [Content("model", [Part(Greeting)]), Content("user", [Part("Summarize his key skills.")])]
  {
  }
}
