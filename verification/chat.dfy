/** The scripted chat assistant of the clinic UI (`handleChatSubmit`): a
    blank input is ignored; otherwise the input is posted as the user's
    message and answered by the first keyword group its lower-cased text
    contains. */
module Chat {
  import opened JsStrings

  /** Which scripted reply the assistant gives. */
  datatype Intent =
    | SymptomQuestions   // pain or headache: ask duration, severity and other symptoms
    | OfferBooking       // appointment or booking: offer the booking system
    | OfferSymptomForm   // days or weeks: recommend a visit, offer the symptom form
    | AssessmentReady    // yes or please: point at the prepared recommendation
    | Greeting           // anything else: greeting and capability menu

  function Reply(intent: Intent): string
  {
    match intent
    case SymptomQuestions =>
      "I understand you're experiencing discomfort. Could you tell me: 1) How long have you had this symptom? 2) Rate the pain from 1-10. 3) Any other symptoms like fever or nausea?"
    case OfferBooking =>
      "I'd be happy to help you schedule an appointment! Let me redirect you to our booking system. Would you like to see available slots?"
    case OfferSymptomForm =>
      "Based on your symptoms, I recommend scheduling an appointment with a doctor. Would you like me to pre-fill the symptom checker form for you? This will help the doctor prepare for your visit."
    case AssessmentReady =>
      "Great! I've prepared a preliminary assessment. Click the 'View Recommendation' button below to see suggested next steps and book an appointment if needed."
    case Greeting =>
      "Hello! I'm your AI health assistant. I can help you with: \n• Symptom assessment\n• Appointment scheduling\n• Medication reminders\n• Health tips\n\nHow can I assist you today?"
  }

  /** The classifier exactly as the handler writes it: a chain of
      `includes` tests on the lower-cased input. */
  function Classify(input: string): Intent
  {
    var text := ToLower(input);
    if Contains(text, "headache") || Contains(text, "pain") then SymptomQuestions
    else if Contains(text, "appointment") || Contains(text, "book") then OfferBooking
    else if Contains(text, "days") || Contains(text, "week") then OfferSymptomForm
    else if Contains(text, "yes") || Contains(text, "please") then AssessmentReady
    else Greeting
  }

  // ---------------------------------------------------------------------
  // The same classifier as an ordered rule table
  // ---------------------------------------------------------------------

  datatype Rule = Rule(keywords: seq<string>, intent: Intent)

  /** The keyword groups in priority order. */
  const Rules: seq<Rule> := [
    Rule(["headache", "pain"], SymptomQuestions),
    Rule(["appointment", "book"], OfferBooking),
    Rule(["days", "week"], OfferSymptomForm),
    Rule(["yes", "please"], AssessmentReady)
  ]

  predicate Matches(text: string, rule: Rule)
  {
    exists k :: k in rule.keywords && Contains(text, k)
  }

  /** First-match-wins evaluation of a rule table, with `Greeting` as the
      default. */
  function FirstMatch(text: string, rules: seq<Rule>): Intent
    decreases |rules|
  {
    if |rules| == 0 then Greeting
    else if Matches(text, rules[0]) then rules[0].intent
    else FirstMatch(text, rules[1..])
  }

  /** The earliest rule that matches decides, whatever later rules match. */
  lemma {:induction false} FirstMatchWins(text: string, rules: seq<Rule>, i: int)
    requires 0 <= i < |rules| && Matches(text, rules[i])
    requires forall j :: 0 <= j < i ==> !Matches(text, rules[j])
    ensures FirstMatch(text, rules) == rules[i].intent
    decreases i
  {
    if i > 0 {
      assert !Matches(text, rules[0]);
      FirstMatchWins(text, rules[1..], i - 1);
    }
  }

  /** With no rule matching, the default applies. */
  lemma {:induction false} NoMatchGivesDefault(text: string, rules: seq<Rule>)
    requires forall j :: 0 <= j < |rules| ==> !Matches(text, rules[j])
    ensures FirstMatch(text, rules) == Greeting
    decreases |rules|
  {
    if |rules| > 0 {
      assert !Matches(text, rules[0]);
      NoMatchGivesDefault(text, rules[1..]);
    }
  }

  /** The handler's if/else chain is first-match-wins over the rule table
      applied to the lower-cased input. */
  lemma ClassifyFollowsTable(input: string)
    ensures Classify(input) == FirstMatch(ToLower(input), Rules)
  {
    var text := ToLower(input);
    assert Matches(text, Rules[0]) <==> Contains(text, "headache") || Contains(text, "pain") by {
      assert "headache" in Rules[0].keywords && "pain" in Rules[0].keywords;
    }
    assert Matches(text, Rules[1]) <==> Contains(text, "appointment") || Contains(text, "book") by {
      assert "appointment" in Rules[1].keywords && "book" in Rules[1].keywords;
    }
    assert Matches(text, Rules[2]) <==> Contains(text, "days") || Contains(text, "week") by {
      assert "days" in Rules[2].keywords && "week" in Rules[2].keywords;
    }
    assert Matches(text, Rules[3]) <==> Contains(text, "yes") || Contains(text, "please") by {
      assert "yes" in Rules[3].keywords && "please" in Rules[3].keywords;
    }
    assert Rules[1..][1..][1..][1..] == [];
  }

  /** The reply depends only on the lower-cased text: inputs differing only in
      the case of ASCII letters get the same reply. */
  lemma ClassifyIgnoresCase(a: string, b: string)
    requires ToLower(a) == ToLower(b)
    ensures Classify(a) == Classify(b)
    ensures Classify(ToLower(a)) == Classify(a)
  {
    ToLowerIdempotent(a);
  }

  /** A symptom keyword wins over every other keyword, for example an input
      asking both about pain and about booking gets the symptom questions. */
  lemma SymptomRuleComesFirst(input: string)
    requires Contains(ToLower(input), "pain") || Contains(ToLower(input), "headache")
    ensures Classify(input) == SymptomQuestions
  {
  }

  /** An input asking both about pain and about booking gets the symptom
      questions. */
  lemma PainAndBookingExample()
    ensures Classify("I have pain and want to book") == SymptomQuestions
  {
    var t := ToLower("I have pain and want to book");
    assert t[7..] == "pain and want to book";
    assert StartsWith(t[7..], "pain");
    ContainsMeaning(t, "pain");
    assert OccursAt(t, "pain", 7);
  }

  lemma BookingExample()
    ensures Classify("Book") == OfferBooking
  {
    assert ToLower("Book") == "book";
    assert StartsWith("book", "book");
  }

  /** The empty input falls through to the greeting. */
  lemma EmptyInputExample()
    ensures Classify("") == Greeting
  {
  }

  // ---------------------------------------------------------------------
  // Submitting the chat form
  // ---------------------------------------------------------------------

  datatype Role = User | Ai

  datatype ChatMessage = ChatMessage(role: Role, content: string)

  /** The chat part of the UI state: the transcript and the input box. */
  datatype ChatState = ChatState(messages: seq<ChatMessage>, input: string)

  /** The form's submit handler, with the assistant's reply already
      delivered. A blank input leaves everything as it is (the input box is
      not cleared either); otherwise the raw input is posted, the reply
      follows it, and the input box is emptied. */
  function Submit(st: ChatState): (r: ChatState)
    ensures IsBlank(st.input) ==> r == st
    ensures !IsBlank(st.input) ==>
      && r.input == ""
      && |r.messages| == |st.messages| + 2
      && r.messages[..|st.messages|] == st.messages
      && r.messages[|st.messages|] == ChatMessage(User, st.input)
      && r.messages[|st.messages| + 1] == ChatMessage(Ai, Reply(Classify(st.input)))
  {
    if IsBlank(st.input) then st
    else
      var question := ChatMessage(User, st.input);
      var answer := ChatMessage(Ai, Reply(Classify(st.input)));
      ChatState(st.messages + [question, answer], "")
  }

  /** A user message is followed by the reply to it. */
  predicate IsExchange(question: ChatMessage, answer: ChatMessage)
  {
    && question.role == User
    && !IsBlank(question.content)
    && answer == ChatMessage(Ai, Reply(Classify(question.content)))
  }

  /** A transcript cut into consecutive pairs, each related by `exchange`. */
  predicate PairedBy(messages: seq<ChatMessage>, exchange: (ChatMessage, ChatMessage) -> bool)
    decreases |messages|
  {
    if |messages| == 0 then true
    else |messages| >= 2 && exchange(messages[0], messages[1]) && PairedBy(messages[2..], exchange)
  }

  /** A transcript made of exchanges: every non-blank user message is answered
      exactly once, right after it, in submission order. */
  predicate WellPaired(messages: seq<ChatMessage>)
  {
    PairedBy(messages, IsExchange)
  }

  lemma {:induction false} PairedByExtend(messages: seq<ChatMessage>, exchange: (ChatMessage, ChatMessage) -> bool,
                                          question: ChatMessage, answer: ChatMessage)
    requires PairedBy(messages, exchange) && exchange(question, answer)
    ensures PairedBy(messages + [question, answer], exchange)
    decreases |messages|
  {
    var all := messages + [question, answer];
    if |messages| == 0 {
      assert all[2..] == [];
    } else {
      PairedByExtend(messages[2..], exchange, question, answer);
      assert all[2..] == messages[2..] + [question, answer];
    }
  }

  /** Submitting keeps the transcript well paired: one reply per accepted
      input and none for a blank one. */
  lemma SubmitKeepsPairing(st: ChatState)
    requires WellPaired(st.messages)
    ensures WellPaired(Submit(st).messages)
  {
    if !IsBlank(st.input) {
      PairedByExtend(st.messages, IsExchange, ChatMessage(User, st.input), ChatMessage(Ai, Reply(Classify(st.input))));
    }
  }
}
