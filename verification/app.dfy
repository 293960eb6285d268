/**
 The application's document lifecycle: which document is current, which view
 is shown, whether a generation is in flight, the error banner and the prompt.
 The asynchronous producer (generation or rewriting by the language model) is
 an input: its eventual outcome is passed in as a `ProducerResult`.
 */
module App {
  import opened Wrappers
  import opened JsText
  import opened Types
  import opened Seqs
  import opened Renderer

  datatype View = Dashboard | Create | Templates

  /** The application's state variables. */
  datatype AppState = AppState(
    doc: Document,
    view: View,
    isGenerating: bool,
    error: Option<string>,
    prompt: string,
    loadingText: string)

  /** What an awaited producer call ended with. */
  datatype ProducerResult = Success(produced: Document) | Failure

  /** A template entry of the catalogue; only `data` and `name` matter here. */
  datatype TemplateDefinition = TemplateDefinition(
    id: string,
    name: string,
    description: string,
    thumbnailColor: string,
    data: Document)

  const DesigningText: string := "กำลังออกแบบอินโฟกราฟิกของคุณ..."
  const PolishingText: string := "กำลังปรับแต่งข้อความด้วย AI..."
  const GenerateErrorText: string := "ไม่สามารถสร้างอินโฟกราฟิกได้ กรุณาลองใหม่อีกครั้ง"
  const OptimizeErrorText: string := "ไม่สามารถปรับปรุงเนื้อหาได้ กรุณาลองใหม่อีกครั้ง"
  const TemplatePromptPrefix: string := "เทมเพลต: "

  /** The demo document the application opens with. */
  const MockData: Document := Document(
    "กาแฟ vs ชา: พฤติกรรมการดื่ม",
    "การเปรียบเทียบพฤติกรรมการบริโภคระดับโลก",
    "#8b5cf6",
    "#f8fafc",
    [
      Section("s1", Stat, "จำนวนแก้วที่ดื่มต่อวัน (พันล้าน)", None, None,
        [DataPoint("กาแฟ", 2.25, None), DataPoint("ชา", 3.0, None)], None),
      Section("s2", Pie, "ส่วนแบ่งการตลาดตามภูมิภาค", Some("ความนิยมหลักในทวีปต่างๆ"), None,
        [DataPoint("ยุโรป (กาแฟ)", 65.0, None), DataPoint("เอเชีย (ชา)", 80.0, None),
         DataPoint("อเมริกา (กาแฟ)", 70.0, None), DataPoint("แอฟริกา (ผสม)", 50.0, None)], None),
      Section("s3", Bar, "ปริมาณคาเฟอีน (มก.)", None, None,
        [DataPoint("เอสเพรสโซ", 63.0, None), DataPoint("กาแฟดริป", 95.0, None),
         DataPoint("ชาดำ", 47.0, None), DataPoint("ชาเขียว", 28.0, None)], None)
    ],
    Some("ที่มา: ดัชนีเครื่องดื่มโลก 2024"),
    None)

  /** The state on first render. */
  function Initial(): (st: AppState)
    ensures SectionIds(st.doc.sections) == ["s1", "s2", "s3"]
    ensures UniqueIds(st.doc.sections)
    ensures st.view == Dashboard && !st.isGenerating && st.error == None && st.prompt == ""
  {
    AppState(MockData, Dashboard, false, None, "", DesigningText)
  }

  // ---------------------------------------------------------------------------
  // Generation

  /** The synchronous part of `handleGenerate(input)`: a blank input returns
      at once; otherwise the busy flag is raised and the error cleared before
      the producer is awaited. The guard `!input.trim()` is written `IsBlank`,
      which `TrimEmptyIffBlank` shows to be the same test. */
  function GenerateStart(st: AppState, input: string): (r: AppState)
    ensures IsBlank(input) ==> r == st
    ensures !IsBlank(input) ==>
      && r.isGenerating && r.error == None && r.loadingText == DesigningText
      && r.doc == st.doc && r.view == st.view && r.prompt == st.prompt
  {
    if IsBlank(input) then st
    else st.(isGenerating := true, loadingText := DesigningText, error := None)
  }

  /** The rest of `handleGenerate` once the producer has answered: a new
      document replaces the current one; a failure keeps the document and
      shows the error. Either way the busy flag is lowered. The handler
      compares the view it captured when it was called (`startView`) with the
      editor: only when it was called from another view does it open the
      editor, so a navigation made while waiting survives a call made from
      the editor. */
  function GenerateSettle(st: AppState, startView: View, result: ProducerResult): (r: AppState)
    ensures !r.isGenerating
    ensures r.prompt == st.prompt && r.loadingText == st.loadingText
    ensures result.Success? ==> r.doc == result.produced && r.error == st.error
    ensures result.Success? && startView != Create ==> r.view == Create
    ensures result.Success? && startView == Create ==> r.view == st.view
    ensures result.Failure? ==> r.doc == st.doc && r.view == st.view && r.error == Some(GenerateErrorText)
  {
    match result
    case Success(produced) =>
      var view := if startView != Create then Create else st.view;
      st.(doc := produced, view := view, isGenerating := false)
    case Failure => st.(error := Some(GenerateErrorText), isGenerating := false)
  }

  /** `handleGenerate(input)` from start to finish, with nothing else
      happening while the producer is awaited. */
  function HandleGenerate(st: AppState, input: string, result: ProducerResult): (r: AppState)
    ensures IsBlank(input) ==> r == st
    ensures !IsBlank(input) ==> !r.isGenerating && r.prompt == st.prompt
    ensures !IsBlank(input) && result.Success? ==>
      r.doc == result.produced && r.view == Create && r.error == None
    ensures !IsBlank(input) && result.Failure? ==>
      r.doc == st.doc && r.view == st.view && r.error == Some(GenerateErrorText)
  {
    if IsBlank(input) then st else GenerateSettle(GenerateStart(st, input), st.view, result)
  }

  // ---------------------------------------------------------------------------
  // Rewriting

  /** The synchronous part of `handleOptimize`: busy, error cleared. */
  function OptimizeStart(st: AppState): (r: AppState)
    ensures r.isGenerating && r.error == None && r.loadingText == PolishingText
    ensures r.doc == st.doc && r.view == st.view && r.prompt == st.prompt
  {
    st.(isGenerating := true, loadingText := PolishingText, error := None)
  }

  /** The rest of `handleOptimize`: the rewritten document replaces the
      current one as it is (nothing of the old one, sources included, is
      carried over); a failure keeps the document and shows the error. The
      view is not changed, and the busy flag is lowered either way. */
  function OptimizeSettle(st: AppState, result: ProducerResult): (r: AppState)
    ensures !r.isGenerating && r.view == st.view && r.prompt == st.prompt
    ensures result.Success? ==> r.doc == result.produced && r.error == st.error
    ensures result.Failure? ==> r.doc == st.doc && r.error == Some(OptimizeErrorText)
  {
    match result
    case Success(produced) => st.(doc := produced, isGenerating := false)
    case Failure => st.(error := Some(OptimizeErrorText), isGenerating := false)
  }

  /** `handleOptimize` from start to finish; it has no blank-input check. */
  function HandleOptimize(st: AppState, result: ProducerResult): (r: AppState)
    ensures !r.isGenerating && r.view == st.view && r.prompt == st.prompt
    ensures result.Success? ==> r.doc == result.produced && r.error == None
    ensures result.Failure? ==> r.doc == st.doc && r.error == Some(OptimizeErrorText)
  {
    OptimizeSettle(OptimizeStart(st), result)
  }

  /** The sources line after a successful rewrite is the rewritten document's
      own: sources the previous document showed are not carried over. */
  lemma RewriteShowsOnlyItsOwnSources(st: AppState, rewritten: Document)
    ensures ShownSources(HandleOptimize(st, Success(rewritten)).doc) == ShownSources(rewritten)
  {
  }

  // ---------------------------------------------------------------------------
  // Templates, navigation, prompt and direct edits

  /** `handleTemplateSelect`: the template's document becomes current, the
      editor opens and the prompt names the template. */
  function SelectTemplate(st: AppState, t: TemplateDefinition): (r: AppState)
    ensures r.doc == t.data && r.view == Create
    ensures |r.prompt| == |TemplatePromptPrefix| + |t.name|
    ensures r.prompt[..|TemplatePromptPrefix|] == TemplatePromptPrefix
    ensures r.prompt[|TemplatePromptPrefix|..] == t.name
    ensures r.isGenerating == st.isGenerating && r.error == st.error
  {
    st.(doc := t.data, view := Create, prompt := TemplatePromptPrefix + t.name)
  }

  /** The events the application reacts to. Producer calls are taken as
      settled in one step, with their outcome as data. */
  datatype Event =
    | Navigate(to: View)
    | TypePrompt(text: string)
    | GenerateFromPrompt(result: ProducerResult)
    | Transcript(text: string, result: ProducerResult)
    | Optimize(result: ProducerResult)
    | PickTemplate(template: TemplateDefinition)
    | EditDocument(edited: Document)

  /** One event: navigation buttons set the view, typing sets the prompt, the
      generate button generates from the prompt, a voice transcript sets the
      prompt and generates from it, the renderer's `onUpdate` replaces the
      document. */
  function Step(st: AppState, e: Event): AppState {
    match e
    case Navigate(v) => st.(view := v)
    case TypePrompt(text) => st.(prompt := text)
    case GenerateFromPrompt(result) => HandleGenerate(st, st.prompt, result)
    case Transcript(text, result) => HandleGenerate(st.(prompt := text), text, result)
    case Optimize(result) => HandleOptimize(st, result)
    case PickTemplate(t) => SelectTemplate(st, t)
    case EditDocument(edited) => st.(doc := edited)
  }

  function Run(st: AppState, events: seq<Event>): AppState
    decreases |events|
  {
    if events == [] then st else Run(Step(st, events[0]), events[1..])
  }

  /** Once every producer call has settled, nothing is in flight. */
  lemma {:induction false} NeverBusyBetweenEvents(st: AppState, events: seq<Event>)
    requires !st.isGenerating
    ensures !Run(st, events).isGenerating
    decreases |events|
  {
    if events != [] {
      NeverBusyBetweenEvents(Step(st, events[0]), events[1..]);
    }
  }

  /** Whether an event replaces the current document when it happens in
      state `st`: a generation only when its input is not blank and the
      producer succeeds, a rewrite only when the producer succeeds, and every
      template choice and renderer edit. */
  predicate MayReplaceDocument(st: AppState, e: Event) {
    match e
    case GenerateFromPrompt(result) => !IsBlank(st.prompt) && result.Success?
    case Transcript(text, result) => !IsBlank(text) && result.Success?
    case Optimize(result) => result.Success?
    case PickTemplate(_) => true
    case EditDocument(_) => true
    case _ => false
  }

  /** The document an event brings with it, if any. */
  function Offered(e: Event): Option<Document> {
    match e
    case GenerateFromPrompt(Success(d)) => Some(d)
    case Transcript(_, Success(d)) => Some(d)
    case Optimize(Success(d)) => Some(d)
    case PickTemplate(t) => Some(t.data)
    case EditDocument(d) => Some(d)
    case _ => None
  }

  /** An event that cannot replace the document leaves it as it is. */
  lemma StepKeepsDocument(st: AppState, e: Event)
    requires !MayReplaceDocument(st, e)
    ensures Step(st, e).doc == st.doc
  {
    match e {
      case GenerateFromPrompt(_) =>
      case Transcript(_, _) =>
      case _ =>
    }
  }

  /** An event that can replace the document installs the one it brings. */
  lemma StepInstallsOfferedDocument(st: AppState, e: Event)
    requires MayReplaceDocument(st, e)
    ensures Offered(e).Some? && Step(st, e).doc == Offered(e).value
  {
  }

  /** No event of the run, in the state it meets, replaces the document. */
  predicate NothingReplaces(st: AppState, events: seq<Event>)
    decreases |events|
  {
    events == [] ||
    (!MayReplaceDocument(st, events[0]) && NothingReplaces(Step(st, events[0]), events[1..]))
  }

  /** Navigation, typing, blank or failed generations and failed rewrites
      never change the document. */
  lemma {:induction false} DocumentChangesOnlyByReplacement(st: AppState, events: seq<Event>)
    requires NothingReplaces(st, events)
    ensures Run(st, events).doc == st.doc
    decreases |events|
  {
    if events != [] {
      StepKeepsDocument(st, events[0]);
      DocumentChangesOnlyByReplacement(Step(st, events[0]), events[1..]);
    }
  }

  /** A blank voice transcript still lands in the prompt box but starts nothing. */
  lemma BlankTranscriptOnlySetsPrompt(st: AppState, text: string, result: ProducerResult)
    requires IsBlank(text)
    ensures Step(st, Transcript(text, result)) == st.(prompt := text)
  {
  }

  // ---------------------------------------------------------------------------
  // Calls in flight

  /** A producer call that has started and not answered yet, with what its
      handler captured when it was called. */
  datatype PendingCall = PendingGenerate(startView: View) | PendingOptimize

  /** The application state together with the producer calls in flight,
      oldest first. */
  datatype Session = Session(app: AppState, pending: seq<PendingCall>)

  /** What can happen while calls are in flight. The generate buttons and the
      rewrite button are disabled while the busy flag is up; the Enter key of
      the dashboard's prompt box, a voice transcript and the template cards
      are not gated. A transcript carries the view in which the microphone
      was pressed: the handler it reaches is the one captured then.
      `Answer(k, result)` is the k-th pending call settling, in any order. */
  datatype SessionEvent =
    | UserNavigate(to: View)
    | UserTypePrompt(text: string)
    | UserEdit(edited: Document)
    | UserPickTemplate(template: TemplateDefinition)
    | PressGenerate
    | PressEnter
    | VoiceTranscript(text: string, micView: View)
    | PressOptimize
    | Answer(k: nat, result: ProducerResult)

  /** `handleGenerate(input)` up to its `await`, for the handler captured in
      view `startView`: a blank input starts nothing; otherwise a generation
      is pending that remembers `startView`. */
  function BeginGenerate(s: Session, input: string, startView: View): Session {
    if IsBlank(input) then s
    else Session(GenerateStart(s.app, input), s.pending + [PendingGenerate(startView)])
  }

  /** The half of a handler that runs once its call `c` has answered. */
  function Settle(st: AppState, c: PendingCall, result: ProducerResult): AppState {
    match c
    case PendingGenerate(v) => GenerateSettle(st, v, result)
    case PendingOptimize => OptimizeSettle(st, result)
  }

  function SessionStep(s: Session, e: SessionEvent): Session {
    match e
    case UserNavigate(v) => s.(app := s.app.(view := v))
    case UserTypePrompt(text) => s.(app := s.app.(prompt := text))
    case UserEdit(d) => s.(app := s.app.(doc := d))
    case UserPickTemplate(t) => s.(app := SelectTemplate(s.app, t))
    case PressGenerate =>
      if s.app.isGenerating then s else BeginGenerate(s, s.app.prompt, s.app.view)
    case PressEnter =>
      if s.app.view != Dashboard then s else BeginGenerate(s, s.app.prompt, s.app.view)
    case VoiceTranscript(text, micView) =>
      BeginGenerate(s.(app := s.app.(prompt := text)), text, micView)
    case PressOptimize =>
      if s.app.isGenerating then s
      else Session(OptimizeStart(s.app), s.pending + [PendingOptimize])
    case Answer(k, result) =>
      if k < |s.pending| then Session(Settle(s.app, s.pending[k], result), Without(s.pending, k))
      else s
  }

  function SessionRun(s: Session, events: seq<SessionEvent>): Session
    decreases |events|
  {
    if events == [] then s else SessionRun(SessionStep(s, events[0]), events[1..])
  }

  lemma SessionRunTwo(s: Session, a: SessionEvent, b: SessionEvent)
    ensures SessionRun(s, [a, b]) == SessionStep(SessionStep(s, a), b)
  {
    var s1 := SessionStep(s, a);
    assert [a, b][0] == a && [a, b][1..] == [b];
    assert SessionRun(s, [a, b]) == SessionRun(s1, [b]);
    assert [b][0] == b && [b][1..] == [];
    assert SessionRun(s1, [b]) == SessionRun(SessionStep(s1, b), []);
  }

  lemma SessionRunThree(s: Session, a: SessionEvent, b: SessionEvent, c: SessionEvent)
    ensures SessionRun(s, [a, b, c]) == SessionStep(SessionStep(SessionStep(s, a), b), c)
  {
    assert [a, b, c][1..] == [b, c];
    SessionRunTwo(SessionStep(s, a), b, c);
  }

  /** The busy flag is up only while some call is pending. */
  predicate BusyOnlyWhilePending(s: Session) {
    s.app.isGenerating ==> |s.pending| > 0
  }

  lemma SessionStepKeepsBusyOnlyWhilePending(s: Session, e: SessionEvent)
    requires BusyOnlyWhilePending(s)
    ensures BusyOnlyWhilePending(SessionStep(s, e))
  {
  }

  /** However starts, answers and user actions interleave, the busy flag is
      never up with nothing in flight. */
  lemma {:induction false} SessionRunKeepsBusyOnlyWhilePending(s: Session, events: seq<SessionEvent>)
    requires BusyOnlyWhilePending(s)
    ensures BusyOnlyWhilePending(SessionRun(s, events))
    decreases |events|
  {
    if events != [] {
      SessionStepKeepsBusyOnlyWhilePending(s, events[0]);
      SessionRunKeepsBusyOnlyWhilePending(SessionStep(s, events[0]), events[1..]);
    }
  }

  /** The converse does not hold: the flag is one boolean, not a count. Two
      generations started with the Enter key and the first answer lowers the
      flag while the second is still in flight, enabling the buttons again. */
  lemma FlagDropsWhileCallPending(s: Session, result: ProducerResult)
    requires s.pending == [] && s.app.view == Dashboard && !IsBlank(s.app.prompt)
    ensures var t := SessionRun(s, [PressEnter, PressEnter, Answer(0, result)]);
      !t.app.isGenerating && |t.pending| == 1
  {
    SessionRunThree(s, PressEnter, PressEnter, Answer(0, result));
    var s1 := SessionStep(s, PressEnter);
    assert s1.app.prompt == s.app.prompt && |s1.pending| == 1;
    var s2 := SessionStep(s1, PressEnter);
    assert |s2.pending| == 2;
    var s3 := SessionStep(s2, Answer(0, result));
    assert s3.pending == Without(s2.pending, 0) && !s3.app.isGenerating;
  }

  /** A generation settles against the view it captured when it started: one
      started from the editor leaves a navigation made while waiting in
      place, one started elsewhere opens the editor whatever happened since. */
  lemma SuccessRespectsNavigationDuringWait(s: Session, v: View, d: Document)
    requires s.pending == [] && !s.app.isGenerating && !IsBlank(s.app.prompt)
    ensures var t := SessionRun(s, [PressGenerate, UserNavigate(v), Answer(0, Success(d))]);
      && t.pending == [] && !t.app.isGenerating && t.app.doc == d
      && t.app.view == (if s.app.view == Create then v else Create)
  {
    SessionRunThree(s, PressGenerate, UserNavigate(v), Answer(0, Success(d)));
    var s1 := SessionStep(s, PressGenerate);
    assert s1.pending == [PendingGenerate(s.app.view)];
    var s2 := SessionStep(s1, UserNavigate(v));
    assert s2.pending == s1.pending && s2.app.view == v;
    assert Without([PendingGenerate(s.app.view)], 0) == [];
    assert SessionStep(s2, Answer(0, Success(d))).app == GenerateSettle(s2.app, s.app.view, Success(d));
  }

  /** A voice-started generation settles against the view in which the
      microphone was pressed, not the one the transcript arrives in: pressed
      in the editor, a navigation made before or after the transcript is kept;
      pressed elsewhere, the editor opens. */
  lemma VoiceSettlesAgainstMicView(s: Session, v: View, text: string, micView: View, d: Document)
    requires s.pending == [] && !IsBlank(text)
    ensures var t := SessionRun(s, [UserNavigate(v), VoiceTranscript(text, micView), Answer(0, Success(d))]);
      && t.pending == [] && !t.app.isGenerating && t.app.doc == d && t.app.prompt == text
      && t.app.view == (if micView == Create then v else Create)
  {
    SessionRunThree(s, UserNavigate(v), VoiceTranscript(text, micView), Answer(0, Success(d)));
    var s1 := SessionStep(s, UserNavigate(v));
    assert s1.pending == [] && s1.app.view == v;
    var s2 := SessionStep(s1, VoiceTranscript(text, micView));
    assert s2.pending == [PendingGenerate(micView)] && s2.app.view == v && s2.app.prompt == text;
    assert Without([PendingGenerate(micView)], 0) == [];
    assert SessionStep(s2, Answer(0, Success(d))).app == GenerateSettle(s2.app, micView, Success(d));
  }

  /** A result applies to the state current when it arrives: a successful
      generation discards every edit made to the document while it was
      pending; no request token guards the replacement. */
  lemma PendingEditsAreOverwritten(s: Session, edited: Document, d: Document)
    requires s.pending == [] && !s.app.isGenerating && !IsBlank(s.app.prompt)
    ensures SessionRun(s, [PressGenerate, UserEdit(edited), Answer(0, Success(d))]).app.doc == d
  {
    SessionRunThree(s, PressGenerate, UserEdit(edited), Answer(0, Success(d)));
    var s1 := SessionStep(s, PressGenerate);
    assert s1.pending == [PendingGenerate(s.app.view)];
    var s2 := SessionStep(s1, UserEdit(edited));
    assert s2.pending == s1.pending;
    assert SessionStep(s2, Answer(0, Success(d))).app == GenerateSettle(s2.app, s.app.view, Success(d));
  }

  /** The session events an atomic event in state `st` stands for: its
      producer call, if any, starts and is answered before anything else
      happens, so a transcript arrives in the view where the microphone was
      pressed. */
  function Expand(st: AppState, e: Event): seq<SessionEvent> {
    match e
    case Navigate(v) => [UserNavigate(v)]
    case TypePrompt(text) => [UserTypePrompt(text)]
    case GenerateFromPrompt(r) => [PressGenerate, Answer(0, r)]
    case Transcript(text, r) => [VoiceTranscript(text, st.view), Answer(0, r)]
    case Optimize(r) => [PressOptimize, Answer(0, r)]
    case PickTemplate(t) => [UserPickTemplate(t)]
    case EditDocument(d) => [UserEdit(d)]
  }

  function ExpandAll(st: AppState, events: seq<Event>): seq<SessionEvent>
    decreases |events|
  {
    if events == [] then []
    else Expand(st, events[0]) + ExpandAll(Step(st, events[0]), events[1..])
  }

  lemma {:induction false} SessionRunAppend(s: Session, a: seq<SessionEvent>, b: seq<SessionEvent>)
    ensures SessionRun(s, a + b) == SessionRun(SessionRun(s, a), b)
    decreases |a|
  {
    if a == [] {
      assert a + b == b;
    } else {
      assert (a + b)[0] == a[0];
      assert (a + b)[1..] == a[1..] + b;
      SessionRunAppend(SessionStep(s, a[0]), a[1..], b);
    }
  }

  /** A generation from an idle state, answered at once. */
  lemma GenerateAsSession(st: AppState, input: string, r: ProducerResult)
    ensures SessionStep(BeginGenerate(Session(st, []), input, st.view), Answer(0, r)) == Session(HandleGenerate(st, input, r), [])
  {
    if !IsBlank(input) {
      AnswerAfterStart(st, input, r);
    }
  }

  lemma AnswerAfterStart(st: AppState, input: string, r: ProducerResult)
    requires !IsBlank(input)
    ensures SessionStep(BeginGenerate(Session(st, []), input, st.view), Answer(0, r)) == Session(HandleGenerate(st, input, r), [])
  {
    var started := GenerateStart(st, input);
    var s1 := BeginGenerate(Session(st, []), input, st.view);
    assert s1.app == started && s1.pending == [PendingGenerate(st.view)];
    var s2 := SessionStep(s1, Answer(0, r));
    assert s2.pending == [] by {
      assert Without([PendingGenerate(st.view)], 0) == [];
    }
    assert s2.app == GenerateSettle(started, st.view, r);
    assert HandleGenerate(st, input, r) == GenerateSettle(started, st.view, r);
  }

  /** A rewrite from an idle state, started and answered at once. */
  lemma OptimizeAsSession(st: AppState, r: ProducerResult)
    requires !st.isGenerating
    ensures SessionRun(Session(st, []), [PressOptimize, Answer(0, r)]) == Session(HandleOptimize(st, r), [])
  {
    SessionRunTwo(Session(st, []), PressOptimize, Answer(0, r));
    assert Without([PendingOptimize], 0) == [];
  }

  lemma PromptAsSession(st: AppState, r: ProducerResult)
    requires !st.isGenerating
    ensures SessionRun(Session(st, []), [PressGenerate, Answer(0, r)]) == Session(HandleGenerate(st, st.prompt, r), [])
  {
    SessionRunTwo(Session(st, []), PressGenerate, Answer(0, r));
    GenerateAsSession(st, st.prompt, r);
  }

  lemma TranscriptAsSession(st: AppState, text: string, r: ProducerResult)
    ensures SessionRun(Session(st, []), [VoiceTranscript(text, st.view), Answer(0, r)])
         == Session(HandleGenerate(st.(prompt := text), text, r), [])
  {
    var typed := st.(prompt := text);
    SessionRunTwo(Session(st, []), VoiceTranscript(text, st.view), Answer(0, r));
    assert SessionStep(Session(st, []), VoiceTranscript(text, st.view)) == BeginGenerate(Session(typed, []), text, typed.view);
    GenerateAsSession(typed, text, r);
  }

  lemma SessionRunOne(s: Session, a: SessionEvent)
    ensures SessionRun(s, [a]) == SessionStep(s, a)
  {
    assert [a][1..] == [];
  }

  /** One atomic event from an idle state is its start followed at once by
      its answer. */
  lemma StepAsSession(st: AppState, e: Event)
    requires !st.isGenerating
    ensures SessionRun(Session(st, []), Expand(st, e)) == Session(Step(st, e), [])
  {
    match e {
      case GenerateFromPrompt(r) =>
        PromptAsSession(st, r);
      case Transcript(text, r) =>
        TranscriptAsSession(st, text, r);
      case Optimize(r) =>
        OptimizeAsSession(st, r);
      case Navigate(v) =>
        SessionRunOne(Session(st, []), UserNavigate(v));
      case TypePrompt(text) =>
        SessionRunOne(Session(st, []), UserTypePrompt(text));
      case PickTemplate(t) =>
        SessionRunOne(Session(st, []), UserPickTemplate(t));
      case EditDocument(d) =>
        SessionRunOne(Session(st, []), UserEdit(d));
    }
  }

  /** The atomic machine is the session machine in which every producer call
      is answered before the next event: the run of the expanded events ends
      in the same state, with nothing in flight. */
  lemma {:induction false} RunAsSession(st: AppState, events: seq<Event>)
    requires !st.isGenerating
    ensures SessionRun(Session(st, []), ExpandAll(st, events)) == Session(Run(st, events), [])
    decreases |events|
  {
    if events != [] {
      var next := Step(st, events[0]);
      SessionRunAppend(Session(st, []), Expand(st, events[0]), ExpandAll(next, events[1..]));
      StepAsSession(st, events[0]);
      assert !next.isGenerating;
      RunAsSession(next, events[1..]);
    }
  }
}
