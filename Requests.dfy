/** The two generator entry points (`handleIdeGenerate`,
    `handleSkripGenerate`) and the Enter-key dispatch of the input boxes. */
module Requests {
  import opened Values
  import opened Text
  import opened Retry
  import opened Session
  import opened App

  /** The fields a generator form holds, untrimmed. `tone` is read only by
      the ide form. */
  datatype Form = Form(input: string, creatorName: string, template: string, tone: string)

  /** What a generator does before any request is made. */
  datatype Decision =
    | EmptyInput                       // warns and returns
    | Busy                             // a generation is active: warns and returns
    | Submit(payload: map<string, Json>)

  /** `creator_name: field.value.trim() || 'none'`. */
  function CreatorName(raw: string): (r: string)
    ensures r != ""
    ensures Trim(raw) != "" ==> r == Trim(raw)
    ensures Trim(raw) == "" ==> r == "none"
  {
    var t := Trim(raw);
    if t == "" then "none" else t
  }

  /** The decision of the generator for `mode`, given the form and whether
      a session is active. */
  function Request(mode: Mode, form: Form, generating: bool): (r: Decision)
    ensures r.EmptyInput? <==> Trim(form.input) == ""
    ensures r.Busy? <==> Trim(form.input) != "" && generating
    ensures r.Submit? <==> Trim(form.input) != "" && !generating
  {
    var text := Trim(form.input);
    if text == "" then EmptyInput
    else if generating then Busy
    else
      var common := map[
        "pesan" := JStr(text),
        "creator_name" := JStr(CreatorName(form.creatorName)),
        "template_style" := JStr(form.template)];
      match mode
      case Ide => Submit(common["tone_of_voice" := JStr(form.tone)])
      case Skrip => Submit(common)
  }

  /** The payload carries the trimmed text, the creator name defaulting to
      "none" and the template; only the ide payload has a voice tone. */
  lemma PayloadFields(mode: Mode, form: Form)
    requires Request(mode, form, false).Submit?
    ensures var p := Request(mode, form, false).payload;
      && p.Keys == {"pesan", "creator_name", "template_style"} + (if mode == Ide then {"tone_of_voice"} else {})
      && p["pesan"] == JStr(Trim(form.input)) && Trim(form.input) != ""
      && p["creator_name"] == JStr(CreatorName(form.creatorName))
      && p["template_style"] == JStr(form.template)
      && (mode == Ide ==> p["tone_of_voice"] == JStr(form.tone))
  {
  }

  /** An input that `trim` empties, and only such an input, is refused
      without reaching the network. */
  lemma BlankInputSubmitsNothing(mode: Mode, form: Form, generating: bool)
    ensures Request(mode, form, generating) == EmptyInput
        <==> forall i :: 0 <= i < |form.input| ==> IsSpace(form.input[i])
  {
    TrimSpec(form.input);
  }

  /** A one-character input is refused exactly when that character is
      whitespace to `trim`. */
  lemma SingleCharacterInput(mode: Mode, c: char, generating: bool)
    ensures Request(mode, Form([c], "", "", ""), generating) == EmptyInput <==> IsSpace(c)
  {
    BlankInputSubmitsNothing(mode, Form([c], "", "", ""), generating);
    assert [c][0] == c;
  }

  /** The space separators trim removes include the ideographic and the
      figure space; the zero-width space is no separator and is kept. */
  lemma SpaceSeparators()
    ensures IsSpace('\U{3000}') && IsSpace('\U{2007}') && IsSpace('\U{1680}') && IsSpace('\U{FEFF}')
    ensures !IsSpace('\U{200B}') && !IsSpace('a')
  {
  }

  /** `handleIdeGenerate()` / `handleSkripGenerate()`: decide, then hand
      the payload to handleGenerate with `pesan` as the content. */
  method HandleModeGenerate(app: AppState, mode: Mode, form: Form, submit: seq<FetchOutcome>,
                            startedAt: int, eager: CycleInput, rule: ArmRule)
    returns (decision: Decision, outcome: Option<GenerateOutcome>)
    requires |submit| >= MAX_RETRIES && Supplied(eager)
    modifies app
    ensures decision == Request(mode, form, old(app.isGenerating))
    ensures !decision.Submit? ==> outcome.None? && app.Snapshot() == old(app.Snapshot())
    ensures decision.Submit? ==>
      && outcome.Some?
      && Generated(app.Snapshot(), outcome.value)
         == Generate(old(app.Snapshot()), Trim(form.input), mode, submit, startedAt, eager, rule)
  {
    decision := Request(mode, form, app.isGenerating);
    if !decision.Submit? {
      return decision, None;
    }
    var o := HandleGenerate(app, Trim(form.input), mode, submit, startedAt, eager, rule);
    outcome := Some(o);
  }

  method HandleIdeGenerate(app: AppState, form: Form, submit: seq<FetchOutcome>,
                           startedAt: int, eager: CycleInput, rule: ArmRule)
    returns (decision: Decision, outcome: Option<GenerateOutcome>)
    requires |submit| >= MAX_RETRIES && Supplied(eager)
    modifies app
    ensures decision == Request(Ide, form, old(app.isGenerating))
    ensures !decision.Submit? ==> outcome.None? && app.Snapshot() == old(app.Snapshot())
    ensures decision.Submit? ==>
      && outcome.Some?
      && Generated(app.Snapshot(), outcome.value)
         == Generate(old(app.Snapshot()), Trim(form.input), Ide, submit, startedAt, eager, rule)
  {
    decision, outcome := HandleModeGenerate(app, Ide, form, submit, startedAt, eager, rule);
  }

  method HandleSkripGenerate(app: AppState, form: Form, submit: seq<FetchOutcome>,
                             startedAt: int, eager: CycleInput, rule: ArmRule)
    returns (decision: Decision, outcome: Option<GenerateOutcome>)
    requires |submit| >= MAX_RETRIES && Supplied(eager)
    modifies app
    ensures decision == Request(Skrip, form, old(app.isGenerating))
    ensures !decision.Submit? ==> outcome.None? && app.Snapshot() == old(app.Snapshot())
    ensures decision.Submit? ==>
      && outcome.Some?
      && Generated(app.Snapshot(), outcome.value)
         == Generate(old(app.Snapshot()), Trim(form.input), Skrip, submit, startedAt, eager, rule)
  {
    decision, outcome := HandleModeGenerate(app, Skrip, form, submit, startedAt, eager, rule);
  }

  /** What a key press in an input box does: whether the default is
      prevented, and which generator runs. */
  datatype KeyEffect = KeyEffect(preventDefault: bool, generator: Option<Mode>)

  /** `handleKeyPress(event)` with the current view. */
  function HandleKeyPress(key: string, shiftKey: bool, currentView: string): (r: KeyEffect)
    ensures r.preventDefault <==> key == "Enter" && !shiftKey
    ensures r.generator.Some? ==> r.preventDefault
    ensures r.generator == Some(Ide) <==> key == "Enter" && !shiftKey && currentView == "ide-to-carousel"
    ensures r.generator == Some(Skrip) <==> key == "Enter" && !shiftKey && currentView == "skrip-to-carousel"
  {
    if key == "Enter" && !shiftKey then
      if currentView == "ide-to-carousel" then KeyEffect(true, Some(Ide))
      else if currentView == "skrip-to-carousel" then KeyEffect(true, Some(Skrip))
      else KeyEffect(true, None)
    else KeyEffect(false, None)
  }
}
