/** The decision layer of the content generator (app/ai_service.py): the
    check that a parsed reply from the text-generation service has the
    practice/prompt shape, a typed reading of such a reply, the canned
    fallback content per mood, the user message sent to the service, and the
    validate-then-return step that ends the generate path. The service call
    itself is a parameter. */
module AiService {
  import opened PyText
  import opened JsonValue

  datatype Option<+T> = None | Some(value: T)

  // ---------------------------------------------------------------------
  // Typed content: what a valid reply means
  // ---------------------------------------------------------------------

  /** The four practice categories the validator admits. */
  datatype PracticeType = Breathing | Meditation | Movement | Grounding

  function TypeName(t: PracticeType): string {
    match t
    case Breathing => "breathing"
    case Meditation => "meditation"
    case Movement => "movement"
    case Grounding => "grounding"
  }

  /** The category named exactly by `s`: no trimming and no case folding. */
  function ParseType(s: string): (r: Option<PracticeType>)
    ensures r.Some? ==> TypeName(r.value) == s
    ensures forall t :: TypeName(t) == s ==> r == Some(t)
  {
    if s == "breathing" then Some(Breathing)
    else if s == "meditation" then Some(Meditation)
    else if s == "movement" then Some(Movement)
    else if s == "grounding" then Some(Grounding)
    else None
  }

  datatype Practice = Practice(title: string, description: string, kind: PracticeType)

  /** A practice with its journal prompt: the payload of a valid reply and of
      every fallback entry. */
  datatype Content = Content(practice: Practice, journalPrompt: string)

  /** The texts of a content are non-empty after `strip()`. */
  predicate WellFormed(c: Content) {
    NonBlank(c.practice.title) && NonBlank(c.practice.description) && NonBlank(c.journalPrompt)
  }

  /** The dict `{practice: {title, description, type}, journal_prompt}`. */
  function ToJson(c: Content): Json {
    JObject(map[
      "practice" := JObject(map[
        "title" := JString(c.practice.title),
        "description" := JString(c.practice.description),
        "type" := JString(TypeName(c.practice.kind))]),
      "journal_prompt" := JString(c.journalPrompt)])
  }

  /** Reads the content out of a parsed reply, or None when the reply lacks
      the shape. Extra keys are ignored. This is the reference definition the
      validator is proved against. */
  function Decode(j: Json): (r: Option<Content>)
    ensures r.Some? ==> WellFormed(r.value)
    ensures r.Some? ==>
      j.JObject? && "practice" in j.fields && "journal_prompt" in j.fields
      && j.fields["journal_prompt"] == JString(r.value.journalPrompt)
      && j.fields["practice"].JObject?
      && "title" in j.fields["practice"].fields
      && "description" in j.fields["practice"].fields
      && "type" in j.fields["practice"].fields
      && j.fields["practice"].fields["title"] == JString(r.value.practice.title)
      && j.fields["practice"].fields["description"] == JString(r.value.practice.description)
      && j.fields["practice"].fields["type"] == JString(TypeName(r.value.practice.kind))
  {
    match j
    case JObject(top) =>
      if "practice" in top && "journal_prompt" in top then
        match (top["practice"], top["journal_prompt"])
        case (JObject(p), JString(prompt)) =>
          if "title" in p && "description" in p && "type" in p then
            match (p["title"], p["description"], p["type"])
            case (JString(title), JString(description), JString(typeName)) =>
              var kind := ParseType(typeName);
              if kind.Some? && NonBlank(title) && NonBlank(description) && NonBlank(prompt)
              then Some(Content(Practice(title, description, kind.value), prompt))
              else None
            case _ => None
          else None
        case _ => None
      else None
    case _ => None
  }

  /** Encoding a well-formed content and reading it back gives it again. */
  lemma DecodeToJson(c: Content)
    requires WellFormed(c)
    ensures Decode(ToJson(c)) == Some(c)
  {
  }

  // ---------------------------------------------------------------------
  // _validate_response
  // ---------------------------------------------------------------------

  const RequiredPracticeKeys: seq<string> := ["title", "description", "type"]

  const ValidTypes: seq<string> := ["breathing", "meditation", "movement", "grounding"]

  /** `all(key in v for key in keys)`: stops at the first False and lets an
      exception from `in` propagate. */
  function AllIn(keys: seq<string>, v: Json): (r: Eval<bool>)
    ensures r.Raised? ==> keys != [] && In(keys[0], v).Raised?
    ensures r == Ok(true) <==> forall k :: k in keys ==> In(k, v) == Ok(true)
    ensures v.JObject? ==> r == Ok(forall k :: k in keys ==> k in v.fields)
  {
    if keys == [] then Ok(true)
    else
      var found :- In(keys[0], v);
      if !found then Ok(false) else AllIn(keys[1..], v)
  }

  /** `isinstance(x, str) and x.strip()` as a condition; by
      `StripTruthiness`, `x.strip()` is truthy exactly when `NonBlank(x.s)`. */
  predicate IsNonBlankString(x: Json) {
    x.JString? && NonBlank(x.s)
  }

  /** `all(isinstance(v[key], str) and v[key].strip() for key in keys)`. */
  function AllNonBlankStrings(keys: seq<string>, v: Json): (r: Eval<bool>)
    ensures r.Raised? ==> exists k :: k in keys && Subscript(v, k).Raised?
    ensures r == Ok(true) <==> forall k :: k in keys ==> Subscript(v, k).Ok? && IsNonBlankString(Subscript(v, k).value)
    ensures v.JObject? && (forall k :: k in keys ==> k in v.fields) ==>
      r == Ok(forall k :: k in keys ==> IsNonBlankString(v.fields[k]))
  {
    if keys == [] then Ok(true)
    else
      var x :- Subscript(v, keys[0]);
      if !IsNonBlankString(x) then Ok(false) else AllNonBlankStrings(keys[1..], v)
  }

  /** The body of the `try` block of `_validate_response`, check by check;
      `Raised` is an exception that escapes it. */
  function CheckResponse(result: Json): (r: Eval<bool>)
    ensures r.Raised? ==>
      !result.JObject? || ("practice" in result.fields && !result.fields["practice"].JObject?)
  {
    var hasPractice :- In("practice", result);
    if !hasPractice then Ok(false) else
    var hasPrompt :- In("journal_prompt", result);
    if !hasPrompt then Ok(false) else
    var practice :- Subscript(result, "practice");
    var hasKeys :- AllIn(RequiredPracticeKeys, practice);
    if !hasKeys then Ok(false) else
    var allStrings :- AllNonBlankStrings(RequiredPracticeKeys, practice);
    if !allStrings then Ok(false) else
    var prompt :- Subscript(result, "journal_prompt");
    if !IsNonBlankString(prompt) then Ok(false) else
    var kind :- Subscript(practice, "type");
    // `kind not in valid_types` compares with `==`, and a str equals only
    // an identical str.
    Ok(kind.JString? && kind.s in ValidTypes)
  }

  /** `_validate_response`: the checks, with every exception caught and
      turned into False. */
  predicate ValidateResponse(result: Json): (ok: bool)
    ensures ok <==> Decode(result).Some?
  {
    CheckIffDecodes(result);
    match CheckResponse(result)
    case Ok(verdict) => verdict
    case Raised(_) => false
  }

  /** The checks answer True, without raising, exactly when the reply can be
      read as a content. */
  lemma CheckIffDecodes(j: Json)
    ensures CheckResponse(j) == Ok(true) <==> Decode(j).Some?
  {
    if j.JObject? && "practice" in j.fields && "journal_prompt" in j.fields && j.fields["practice"].JObject? {
      var p := j.fields["practice"];
      if "title" in p.fields && "description" in p.fields && "type" in p.fields {
        assert AllIn(RequiredPracticeKeys, p) == Ok(true);
        var kind := p.fields["type"];
        if kind.JString? && kind.s in ValidTypes {
          assert ParseType(kind.s).Some?;
        }
        if Decode(j).Some? {
          assert AllNonBlankStrings(RequiredPracticeKeys, p) == Ok(true) by {
            TypeNamesNonBlank();
          }
        }
      } else {
        assert AllIn(RequiredPracticeKeys, p) == Ok(false);
      }
    }
  }

  /** The validator accepts a reply exactly when the reply can be read as a
      content: all the checks pass together. */
  lemma ValidateIffDecodes(j: Json)
    ensures ValidateResponse(j) <==> Decode(j).Some?
  {
  }

  lemma TypeNamesNonBlank()
    ensures forall t :: NonBlank(TypeName(t))
  {
    forall t ensures NonBlank(TypeName(t)) {
      var s := TypeName(t);
      assert !IsSpace(s[0]);
    }
  }

  /** A top-level value that is not a dict never validates: `in` either
      raises (None, bool, number) or `result['practice']` does (list, str). */
  lemma NonObjectRejected(j: Json)
    requires !j.JObject?
    ensures !ValidateResponse(j)
  {
  }

  /** A reply without `practice` or without `journal_prompt` is rejected. */
  lemma MissingTopLevelKeyRejected(j: Json)
    requires j.JObject?
    requires "practice" !in j.fields || "journal_prompt" !in j.fields
    ensures !ValidateResponse(j)
  {
  }

  /** A `practice` that is not a dict, or lacks `title`, `description` or
      `type`, is rejected. */
  lemma PracticeShapeRejected(j: Json)
    requires j.JObject? && "practice" in j.fields
    requires !j.fields["practice"].JObject?
      || "title" !in j.fields["practice"].fields
      || "description" !in j.fields["practice"].fields
      || "type" !in j.fields["practice"].fields
    ensures !ValidateResponse(j)
  {
  }

  /** A practice field that is not a str, or is whitespace only, is rejected. */
  lemma BlankPracticeFieldRejected(j: Json, key: string)
    requires key in RequiredPracticeKeys
    requires j.JObject? && "practice" in j.fields && j.fields["practice"].JObject?
    requires key in j.fields["practice"].fields
    requires !IsNonBlankString(j.fields["practice"].fields[key])
    ensures !ValidateResponse(j)
  {
  }

  /** A `journal_prompt` that is not a str, or is whitespace only, is rejected. */
  lemma BadPromptRejected(j: Json)
    requires j.JObject? && "journal_prompt" in j.fields
    requires !IsNonBlankString(j.fields["journal_prompt"])
    ensures !ValidateResponse(j)
  {
  }

  /** A `type` that is not exactly one of the four category names is rejected. */
  lemma UnknownTypeRejected(j: Json)
    requires j.JObject? && "practice" in j.fields && j.fields["practice"].JObject?
    requires "type" in j.fields["practice"].fields
    requires !(j.fields["practice"].fields["type"].JString? && j.fields["practice"].fields["type"].s in ValidTypes)
    ensures !ValidateResponse(j)
  {
  }

  /** A reply of the right shape whose type field holds `typeName`. */
  function SampleReply(typeName: string): Json {
    JObject(map[
      "practice" := JObject(map[
        "title" := JString("Box Breathing"),
        "description" := JString("Breathe in for four counts."),
        "type" := JString(typeName)]),
      "journal_prompt" := JString("How do you feel?")])
  }

  /** The type check is exact: a leading space or a capital letter fails it. */
  lemma TypeMatchIsExact()
    ensures ValidateResponse(SampleReply("breathing"))
    ensures !ValidateResponse(SampleReply(" breathing"))
    ensures !ValidateResponse(SampleReply("Breathing"))
  {
    var ok := Content(Practice("Box Breathing", "Breathe in for four counts.", Breathing), "How do you feel?");
    assert SampleReply("breathing") == ToJson(ok);
    assert WellFormed(ok) by {
      assert !IsSpace(ok.practice.title[0]);
      assert !IsSpace(ok.practice.description[0]);
      assert !IsSpace(ok.journalPrompt[0]);
    }
    DecodeToJson(ok);
    assert " breathing" !in ValidTypes && "Breathing" !in ValidTypes;
    UnknownTypeRejected(SampleReply(" breathing"));
    UnknownTypeRejected(SampleReply("Breathing"));
  }

  /** The `except` branch is reached only when the top-level value or its
      `practice` is not a dict; the validator then answers False. */
  lemma ExceptOnlyOnNonDict(j: Json)
    ensures CheckResponse(j).Raised? ==>
      !j.JObject? || ("practice" in j.fields && !j.fields["practice"].JObject?)
    ensures CheckResponse(j).Raised? ==> !ValidateResponse(j)
  {
  }

  /** A list that holds the two key names passes the `in` tests but makes
      `result['practice']` raise TypeError, which is caught. */
  lemma ListWithKeyNamesRejected()
    ensures CheckResponse(JArray([JString("practice"), JString("journal_prompt")])) == Raised(TypeError)
    ensures !ValidateResponse(JArray([JString("practice"), JString("journal_prompt")]))
  {
  }

  // ---------------------------------------------------------------------
  // get_fallback_content
  // ---------------------------------------------------------------------

  // Each text below is the canned text unchanged. Some are written as a
  // concatenation of shorter literals only because the verifier cannot read
  // single characters of one long literal; the joined string is the same.

  const HappyEntry: Content := Content(
    Practice(
      "Gratitude Breathing",
      "1. Find a comfortable seated position.\n"
      + "2. Take a deep breath in, thinking of one thing you're grateful for.\n"
      + "3. As you exhale, let a smile naturally form.\n"
      + "4. Repeat for 5-7 breaths, bringing to mind different things you appreciate.\n"
      + "5. Notice the warmth of gratitude in your body.",
      Breathing),
    "What brought you joy today, "
    + "and how did it feel in your body?")

  const CalmEntry: Content := Content(
    Practice(
      "Body Scan Meditation",
      "1. Sit or lie down comfortably.\n"
      + "2. Close your eyes and take three deep breaths.\n"
      + "3. Bring your attention to your feet, noticing any sensations.\n"
      + "4. Slowly move your awareness up through your legs, torso, arms, and head.\n"
      + "5. Spend 10-15 seconds on each area, simply observing without judgment.\n"
      + "6. End by taking three more deep breaths.",
      Meditation),
    "What does peace feel like "
    + "in your body right now?")

  const AnxiousEntry: Content := Content(
    Practice(
      "4-7-8 Calming Breath",
      "1. Sit comfortably "
      + "with your back straight.\n"
      + "2. Exhale completely through your mouth.\n"
      + "3. Inhale through your nose for 4 counts.\n"
      + "4. Hold your breath for 7 counts.\n"
      + "5. Exhale through your mouth for 8 counts.\n"
      + "6. Repeat this cycle 3-4 times.\n"
      + "7. Return to normal breathing and notice how you feel.",
      Breathing),
    "What do you need to feel safe "
    + "and grounded right now?")

  const SadEntry: Content := Content(
    Practice(
      "Self-Compassion Hand on Heart",
      "1. Place one or both hands "
      + "over your heart.\n"
      + "2. Feel the warmth and gentle pressure of your hands.\n"
      + "3. Take slow, deep breaths.\n"
      + "4. Silently say: \"May I be kind to myself. May I accept myself as I am.\"\n"
      + "5. Continue for 2-3 minutes, breathing gently.\n"
      + "6. Notice any shift in how you feel.",
      Meditation),
    "What would you say to comfort "
    + "a dear friend who felt this way?")

  /** The canned content, keyed by the exact mood name. */
  const FallbackMap: map<string, Content> :=
    map["Happy" := HappyEntry, "Calm" := CalmEntry, "Anxious" := AnxiousEntry, "Sad" := SadEntry]

  /** Every canned entry has non-blank texts: each starts with a letter or
      a digit. */
  lemma FallbackEntriesWellFormed()
    ensures forall mood :: mood in FallbackMap ==> WellFormed(FallbackMap[mood])
  {
    EntryWellFormed(HappyEntry);
    EntryWellFormed(CalmEntry);
    EntryWellFormed(AnxiousEntry);
    EntryWellFormed(SadEntry);
  }

  lemma EntryWellFormed(c: Content)
    requires c == HappyEntry || c == CalmEntry || c == AnxiousEntry || c == SadEntry
    ensures WellFormed(c)
  {
    var title, description, prompt := c.practice.title, c.practice.description, c.journalPrompt;
    assert title[0] != ' ' && description[0] == '1' && prompt[0] == 'W';
  }

  /** `get_fallback_content`: the mood's own entry, or the Calm entry for any
      other string. Every answer passes the validator and reads back as the
      entry it came from. */
  function GetFallbackContent(mood: string): (r: Json)
    ensures ValidateResponse(r)
    ensures Decode(r) == Some(if mood in FallbackMap then FallbackMap[mood] else CalmEntry)
  {
    var entry := if mood in FallbackMap then FallbackMap[mood] else FallbackMap["Calm"];
    FallbackEntriesWellFormed();
    DecodeToJson(entry);
    ValidateIffDecodes(ToJson(entry));
    ToJson(entry)
  }

  /** Each of the four moods gets its own entry; the three that are not Calm
      differ from the Calm entry. */
  lemma FallbackForKnownMoods()
    ensures Decode(GetFallbackContent("Happy")) == Some(HappyEntry)
    ensures Decode(GetFallbackContent("Calm")) == Some(CalmEntry)
    ensures Decode(GetFallbackContent("Anxious")) == Some(AnxiousEntry)
    ensures Decode(GetFallbackContent("Sad")) == Some(SadEntry)
    ensures HappyEntry.practice.kind == Breathing && CalmEntry.practice.kind == Meditation
    ensures AnxiousEntry.practice.kind == Breathing && SadEntry.practice.kind == Meditation
    ensures HappyEntry != CalmEntry && AnxiousEntry != CalmEntry && SadEntry != CalmEntry
  {
    assert HappyEntry.practice.title[0] == 'G';
    assert CalmEntry.practice.title[0] == 'B';
    assert AnxiousEntry.practice.title[0] == '4';
    assert SadEntry.practice.title[0] == 'S';
  }

  /** Any string other than the four exact mood names, including a
      differently cased one, gets the Calm entry. */
  lemma FallbackDefaultsToCalm(mood: string)
    requires mood != "Happy" && mood != "Calm" && mood != "Anxious" && mood != "Sad"
    ensures GetFallbackContent(mood) == GetFallbackContent("Calm")
    ensures Decode(GetFallbackContent(mood)) == Some(CalmEntry)
  {
  }

  lemma FallbackIsCaseSensitive()
    ensures Decode(GetFallbackContent("happy")) == Some(CalmEntry)
    ensures GetFallbackContent("happy") != GetFallbackContent("Happy")
  {
  }

  // ---------------------------------------------------------------------
  // generate_practice_and_prompt, minus the service call
  // ---------------------------------------------------------------------

  const MoodLabel: string := "User's mood: "
  const BodyLabel: string := "\nBody feeling: "

  /** Python truthiness of an optional str: None and "" are false. */
  predicate Truthy(s: Option<string>) {
    s.Some? && s.value != ""
  }

  /** The user message: the mood line, followed by the body-feeling line only
      when a non-empty body feeling was given. */
  function UserMessage(mood: string, bodyFeeling: Option<string>): (msg: string)
    ensures MoodLabel + mood <= msg
    ensures |msg| > |MoodLabel + mood| <==> Truthy(bodyFeeling)
    ensures Truthy(bodyFeeling) ==> msg[|MoodLabel + mood|..] == BodyLabel + bodyFeeling.value
  {
    var msg := MoodLabel + mood;
    if Truthy(bodyFeeling) then msg + BodyLabel + bodyFeeling.value else msg
  }

  /** Index of the first newline in `s`, or |s| when there is none. */
  function FirstNewline(s: string): (i: nat)
    ensures i <= |s|
    ensures forall k :: 0 <= k < i ==> s[k] != '\n'
    ensures i < |s| ==> s[i] == '\n'
  {
    if s == [] || s[0] == '\n' then 0 else 1 + FirstNewline(s[1..])
  }

  /** Reads the mood and the body feeling back out of a user message. */
  function ParseUserMessage(msg: string): Option<(string, Option<string>)> {
    if !(MoodLabel <= msg) then None
    else
      var rest := msg[|MoodLabel|..];
      var i := FirstNewline(rest);
      if i == |rest| then Some((rest, None))
      else if BodyLabel <= rest[i..] then Some((rest[..i], Some(rest[i + |BodyLabel|..])))
      else None
  }

  /** The user message loses nothing: for a one-line mood, the mood and the
      body feeling (absent when it was None or empty) can be read back. */
  lemma {:induction false} UserMessageRoundTrip(mood: string, bodyFeeling: Option<string>)
    requires forall k :: 0 <= k < |mood| ==> mood[k] != '\n'
    ensures ParseUserMessage(UserMessage(mood, bodyFeeling))
      == Some((mood, if Truthy(bodyFeeling) then bodyFeeling else None))
  {
    var msg := UserMessage(mood, bodyFeeling);
    assert msg[..|MoodLabel|] == MoodLabel;
    var rest := msg[|MoodLabel|..];
    assert rest[..|mood|] == mood;
    NewlineAfterMood(rest, mood);
    if Truthy(bodyFeeling) {
      assert rest == mood + BodyLabel + bodyFeeling.value;
      assert rest[|mood|..] == BodyLabel + bodyFeeling.value;
      assert rest[|mood| + |BodyLabel|..] == bodyFeeling.value;
    } else {
      assert rest == mood;
    }
  }

  /** When `s` starts with a newline-free `prefix`, the first newline of `s`
      is at or after the end of that prefix, and exactly there if `s`
      continues with a newline. */
  lemma NewlineAfterMood(s: string, prefix: string)
    requires prefix <= s
    requires forall k :: 0 <= k < |prefix| ==> prefix[k] != '\n'
    ensures FirstNewline(s) >= |prefix|
    ensures |s| > |prefix| && s[|prefix|] == '\n' ==> FirstNewline(s) == |prefix|
    ensures |s| == |prefix| ==> FirstNewline(s) == |s|
  {
  }

  /** What the service call at lines 56-67 produced before `json.loads` ran:
      a `json.JSONDecodeError` raised by the call itself, any other exception
      (network, API error, a reply without text), text that `json.loads`
      rejects, or text that parses to a value. */
  datatype ApiReply = CallRaisedJsonError | CallFailed | NotJson | Parsed(result: Json)

  /** An exception that leaves `generate_practice_and_prompt` instead of
      turning into None: one raised while the client is built at line 24,
      outside the `try`, or the `UnboundLocalError` that the `except
      json.JSONDecodeError` handler raises when it reads `ai_response` before
      line 67 has assigned it. A handler's own exception is not caught by the
      sibling `except Exception`. */
  datatype Escape = ClientFailed | AiResponseUnbound

  /** How a call of `generate_practice_and_prompt` ends. */
  datatype Outcome = Returned(value: Option<Json>) | Escaped(error: Escape)

  /** The last step of the generate path: the parsed reply is returned only
      if it validates, and otherwise there is no result. */
  function AcceptResponse(result: Json): (r: Option<Json>)
    ensures r.Some? <==> ValidateResponse(result)
    ensures r.Some? ==> r.value == result && Decode(r.value).Some?
  {
    ValidateIffDecodes(result);
    if !ValidateResponse(result) then None else Some(result)
  }

  /** `generate_practice_and_prompt` with the service call as `complete`,
      which answers one user message; the API key is None when unset, and
      `clientCreated` says whether building the client returns normally. */
  function GeneratePracticeAndPrompt(
    apiKey: Option<string>, mood: string, bodyFeeling: Option<string>,
    clientCreated: bool, complete: string -> ApiReply): (r: Outcome)
    ensures r == Escaped(ClientFailed) <==> Truthy(apiKey) && !clientCreated
    ensures r == Escaped(AiResponseUnbound) <==>
      Truthy(apiKey) && clientCreated
      && complete(UserMessage(mood, bodyFeeling)) == CallRaisedJsonError
    ensures r.Returned? && r.value.Some? <==>
      Truthy(apiKey) && clientCreated && complete(UserMessage(mood, bodyFeeling)).Parsed?
      && ValidateResponse(complete(UserMessage(mood, bodyFeeling)).result)
    ensures r.Returned? && r.value.Some? ==>
      r.value.value == complete(UserMessage(mood, bodyFeeling)).result
      && ValidateResponse(r.value.value)
  {
    if !Truthy(apiKey) then Returned(None)
    else if !clientCreated then Escaped(ClientFailed)
    else
      match complete(UserMessage(mood, bodyFeeling))
      case CallRaisedJsonError => Escaped(AiResponseUnbound)
      case CallFailed => Returned(None)
      case NotJson => Returned(None)
      case Parsed(result) => Returned(AcceptResponse(result))
  }

  /** The documented "None if the API call fails" does not hold for every
      failure: with a key set, a `json.JSONDecodeError` raised by the call
      escapes as an exception, while every other failed call gives None. */
  lemma FailedCallOutcomes(
    apiKey: Option<string>, mood: string, bodyFeeling: Option<string>,
    complete: string -> ApiReply)
    requires Truthy(apiKey)
    ensures complete(UserMessage(mood, bodyFeeling)) == CallRaisedJsonError ==>
      GeneratePracticeAndPrompt(apiKey, mood, bodyFeeling, true, complete).Escaped?
    ensures complete(UserMessage(mood, bodyFeeling)) in {CallFailed, NotJson} ==>
      GeneratePracticeAndPrompt(apiKey, mood, bodyFeeling, true, complete) == Returned(None)
  {
  }

  /** Whenever the generate path returns, the content the app ends up with,
      the generated reply or else the mood's fallback, passes the validator
      and reads as a content. */
  lemma GeneratedOrFallbackValid(
    apiKey: Option<string>, mood: string, bodyFeeling: Option<string>,
    clientCreated: bool, complete: string -> ApiReply)
    ensures var g := GeneratePracticeAndPrompt(apiKey, mood, bodyFeeling, clientCreated, complete);
      g.Returned? ==>
        var content := if g.value.Some? then g.value.value else GetFallbackContent(mood);
        ValidateResponse(content) && Decode(content).Some?
  {
  }
}
