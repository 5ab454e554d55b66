/** The enrollment wizard of cmd/kontango/enroll_tui.go: its transition function, and the
    runs it makes with asynchronous replies to the commands it issues. An index out of
    range is a panic. */
module Wizard {
  import opened Common
  import opened Strings

  datatype Step = UrlStep | MethodStep | CredsStep | Scanning | Confirm | Progress | Finished

  datatype Input = Input(value: string, focused: bool)

  datatype Prefill = Prefill(url: string, session: string, roleID: string, secretID: string)

  datatype Model = Model(
    step: Step,
    url: Input,
    methodCursor: int,
    credInputs: seq<Input>,
    credFocus: int,
    fingerprint: Option<string>,
    profiles: seq<string>,
    profileCursor: int,
    showProfiles: bool,
    lines: seq<string>,
    result: Option<string>,
    err: Option<string>,
    prefill: Prefill)

  /** The replies to commands, and what the user and the terminal do. A key comes with
      the text the focused input has after it. */
  datatype Msg =
    | WindowSize
    | KeyMsg(key: string, edited: string)
    | SpinnerTick
    | FingerprintDone(fp: string, err: Option<string>)
    | ProfileList(profiles: seq<string>, err: Option<string>)
    | ProgressLine(text: string, done: bool, err: Option<string>)
    | EnrollDone(result: string, lines: seq<string>, err: Option<string>)

  datatype Cmd =
    | NoCmd
    | Quit
    | Ui
    | CollectFingerprint
    | FetchProfiles(url: string)
    | RunEnroll(url: string, session: string, roleID: string, secretID: string, profile: string)

  datatype Outcome = Next(m: Model, cmd: Cmd) | Panic

  const METHODS: nat := 3
  const APPROLE: int := 1
  const INVITE: int := 2

  function Clip(s: string, limit: nat): string {
    if |s| > limit then s[..limit] else s
  }

  function NewEnrollModel(p: Prefill): Model {
    var cursor := if p.roleID != "" || p.secretID != "" then APPROLE else if p.session != "" then INVITE else 0;
    Model(if p.url != "" then MethodStep else UrlStep, Input(Clip(p.url, 256), p.url == ""),
          cursor, [], 0, None, [], 0, false, [], None, None, p)
  }

  function Edited(i: Input, edited: string): Input {
    if i.focused then i.(value := edited) else i
  }

  function Update(m: Model, msg: Msg): Outcome {
    match msg
    case WindowSize => Next(m, NoCmd)
    case KeyMsg(key, edited) => HandleKey(m, key, edited)
    case SpinnerTick => Next(m, Ui)
    case FingerprintDone(fp, err) =>
      if err.Some? then Next(m.(err := err, step := Finished), NoCmd)
      else Next(m.(fingerprint := Some(fp), step := Confirm), FetchProfiles(m.url.value))
    case ProfileList(profiles, err) =>
      if err.None? && profiles != [] then Next(m.(profiles := profiles, showProfiles := true), NoCmd)
      else Next(m, NoCmd)
    case ProgressLine(text, done, err) =>
      if err.Some? then Next(m.(lines := m.lines + [err.value], step := Finished, err := err), NoCmd)
      else Next(m.(lines := m.lines + [text], step := if done then Finished else m.step), NoCmd)
    case EnrollDone(result, lines, err) =>
      var m1 := if lines != [] then m.(lines := lines) else m;
      if err.Some? then Next(m1.(err := err, step := Finished), NoCmd)
      else Next(m1.(result := Some(result), step := Finished), NoCmd)
  }

  predicate Leaves(key: string) {
    key == "ctrl+c" || key == "esc"
  }

  predicate GoesUp(key: string) {
    key == "up" || key == "k"
  }

  predicate GoesDown(key: string) {
    key == "down" || key == "j"
  }

  predicate Accepts(key: string) {
    key == "enter" || key == "y"
  }

  function HandleKey(m: Model, key: string, edited: string): Outcome {
    match m.step
    case UrlStep => UrlKey(m, key, edited)
    case MethodStep => MethodKey(m, key)
    case CredsStep => CredsKey(m, key, edited)
    case Scanning => Next(m, NoCmd)
    case Confirm => ConfirmKey(m, key)
    case Progress => Next(m, NoCmd)
    case Finished => Next(m, if Leaves(key) || key == "q" || key == "enter" then Quit else NoCmd)
  }

  function UrlKey(m: Model, key: string, edited: string): Outcome {
    if Leaves(key) then Next(m, Quit)
    else if key == "enter" then
      var v := TrimSpace(m.url.value);
      if v == "" then Next(m, NoCmd)
      else if "http" <= v then Next(m.(step := MethodStep), NoCmd)
      else Next(m.(url := m.url.(value := Clip("https://" + v, 256)), step := MethodStep), NoCmd)
    else Next(m.(url := Edited(m.url, edited)), Ui)
  }

  function MethodKey(m: Model, key: string): Outcome {
    if Leaves(key) then Next(m, Quit)
    else if GoesUp(key) then Next(if m.methodCursor > 0 then m.(methodCursor := m.methodCursor - 1) else m, NoCmd)
    else if GoesDown(key) then
      Next(if m.methodCursor < METHODS - 1 then m.(methodCursor := m.methodCursor + 1) else m, NoCmd)
    else if key == "enter" then EnterMethod(m)
    else Next(m, NoCmd)
  }

  function EnterMethod(m: Model): Outcome {
    if m.methodCursor == 0 then StartScanning(m)
    else if m.methodCursor == APPROLE then
      Next(m.(credInputs := [Input(Clip(m.prefill.roleID, 128), true), Input(Clip(m.prefill.secretID, 128), false)],
              credFocus := 0, step := CredsStep), Ui)
    else if m.methodCursor == INVITE then
      Next(m.(credInputs := [Input(Clip(m.prefill.session, 256), true)], credFocus := 0, step := CredsStep), Ui)
    else Next(m, NoCmd)
  }

  predicate InRange(i: int, n: nat) {
    0 <= i < n
  }

  /** Blurs the focused input and focuses another. */
  function MoveFocus(m: Model, to: int): Outcome {
    if !InRange(m.credFocus, |m.credInputs|) || !InRange(to, |m.credInputs|) then Panic
    else
      var blurred := m.credInputs[m.credFocus := m.credInputs[m.credFocus].(focused := false)];
      Next(m.(credInputs := blurred[to := blurred[to].(focused := true)], credFocus := to), NoCmd)
  }

  function CredsKey(m: Model, key: string, edited: string): Outcome {
    var n := |m.credInputs|;
    if Leaves(key) then Next(m.(step := MethodStep), NoCmd)
    else if key == "tab" || key == "down" then
      if n == 0 then Panic else MoveFocus(m, (m.credFocus + 1) % n)
    else if key == "shift+tab" || key == "up" then
      if n == 0 then Panic else MoveFocus(m, (m.credFocus - 1 + n) % n)
    else if key == "enter" then
      if m.credFocus < n - 1 then MoveFocus(m, m.credFocus + 1) else StartScanning(m)
    else if !InRange(m.credFocus, n) then Panic
    else Next(m.(credInputs := m.credInputs[m.credFocus := Edited(m.credInputs[m.credFocus], edited)]), Ui)
  }

  function ConfirmKey(m: Model, key: string): Outcome {
    if Leaves(key) || key == "n" || key == "q" then Next(m, Quit)
    else if GoesUp(key) then
      Next(if m.showProfiles && m.profileCursor > 0 then m.(profileCursor := m.profileCursor - 1) else m, NoCmd)
    else if GoesDown(key) then
      Next(if m.showProfiles && m.profileCursor < |m.profiles| - 1 then
          m.(profileCursor := m.profileCursor + 1) else m, NoCmd)
    else if Accepts(key) then StartEnroll(m)
    else Next(m, NoCmd)
  }

  function StartScanning(m: Model): Outcome {
    Next(m.(step := Scanning), CollectFingerprint)
  }

  function StartEnroll(m: Model): Outcome {
    var n := |m.credInputs|;
    var chosen := m.showProfiles && m.profileCursor > 0;
    if (m.methodCursor == APPROLE && n < 2) || (m.methodCursor == INVITE && n < 1) then Panic
    else if chosen && m.profileCursor >= |m.profiles| then Panic
    else
      Next(m.(step := Progress, lines := []),
           RunEnroll(m.url.value,
                     if m.methodCursor == INVITE then m.credInputs[0].value else "",
                     if m.methodCursor == APPROLE then m.credInputs[0].value else "",
                     if m.methodCursor == APPROLE then m.credInputs[1].value else "",
                     if chosen then m.profiles[m.profileCursor] else ""))
  }

  // ---------------------------------------------------------------- runs

  /** The wizard with the commands it has issued, and how many of each await a reply. */
  datatype World = World(
    m: Model,
    panicked: bool,
    issued: seq<Cmd>,
    scans: nat,
    fetches: nat,
    enrolls: nat)

  function Begin(p: Prefill): World {
    World(NewEnrollModel(p), false, [], 0, 0, 0)
  }

  /** A reply arrives only if it was asked for. No command replies with a progress line. */
  predicate MayArrive(w: World, msg: Msg) {
    match msg
    case FingerprintDone(_, _) => w.scans > 0
    case ProfileList(_, _) => w.fetches > 0
    case EnrollDone(_, _, _) => w.enrolls > 0
    case ProgressLine(_, _, _) => false
    case _ => true
  }

  function Answered(w: World, msg: Msg): World
    requires MayArrive(w, msg)
  {
    match msg
    case FingerprintDone(_, _) => w.(scans := w.scans - 1)
    case ProfileList(_, _) => w.(fetches := w.fetches - 1)
    case EnrollDone(_, _, _) => w.(enrolls := w.enrolls - 1)
    case _ => w
  }

  /** The world after a message that has this outcome. */
  function After(w: World, msg: Msg, o: Outcome): World
    requires MayArrive(w, msg)
  {
    match o
    case Panic => w.(panicked := true)
    case Next(m, cmd) =>
      var w1 := Answered(w, msg);
      World(m, w.panicked, w.issued + [cmd],
            w1.scans + if cmd.CollectFingerprint? then 1 else 0,
            w1.fetches + if cmd.FetchProfiles? then 1 else 0,
            w1.enrolls + if cmd.RunEnroll? then 1 else 0)
  }

  function Turn(w: World, msg: Msg): World
    requires MayArrive(w, msg)
  {
    After(w, msg, Update(w.m, msg))
  }

  /** The run the messages make, if each of them may arrive when it does. */
  function Run(p: Prefill, msgs: seq<Msg>): Option<World> {
    if msgs == [] then Some(Begin(p))
    else
      match Run(p, msgs[..|msgs| - 1])
      case None => None
      case Some(w) => if MayArrive(w, msgs[|msgs| - 1]) then Some(Turn(w, msgs[|msgs| - 1])) else None
  }

  function Scans(issued: seq<Cmd>): nat {
    if issued == [] then 0
    else Scans(issued[..|issued| - 1]) + if issued[|issued| - 1].CollectFingerprint? then 1 else 0
  }

  function Enrolls(issued: seq<Cmd>): nat {
    if issued == [] then 0
    else Enrolls(issued[..|issued| - 1]) + if issued[|issued| - 1].RunEnroll? then 1 else 0
  }

  // ----------------------------------------------------------- invariants

  /** The cursors and the credential inputs fit together. */
  ghost predicate WellFormed(m: Model) {
    0 <= m.methodCursor < METHODS &&
    (m.step.CredsStep? || m.step.Scanning? || m.step.Confirm? ==>
      (m.methodCursor == APPROLE ==> |m.credInputs| == 2) &&
      (m.methodCursor == INVITE ==> |m.credInputs| == 1)) &&
    (m.step.CredsStep? ==>
      m.methodCursor != 0 && InRange(m.credFocus, |m.credInputs|) &&
      forall i :: 0 <= i < |m.credInputs| ==> (m.credInputs[i].focused <==> i == m.credFocus)) &&
    (if m.showProfiles then InRange(m.profileCursor, |m.profiles|) else m.profileCursor == 0) &&
    Reported(m)
  }

  /** The wizard finishes with an error or a result, never both, and has neither before;
      the machine has been scanned when it asks for confirmation. */
  ghost predicate Reported(m: Model) {
    (if m.step.Finished? then m.err.Some? != m.result.Some? else m.err.None? && m.result.None?) &&
    (m.step.Confirm? || m.step.Progress? || m.result.Some? ==> m.fingerprint.Some?)
  }

  /** What may still be awaited, and how many scans and enrollments have been issued, by
      the step the wizard is at. */
  ghost predicate Tallied(step: Step, shown: bool, scans: nat, enrolls: nat, fetches: nat, scanned: nat,
      enrolled: nat)
  {
    scans == (if step.Scanning? then 1 else 0) &&
    enrolls == (if step.Progress? then 1 else 0) &&
    scanned == (if Early(step) then 0 else 1) &&
    (Early(step) || step.Scanning? || step.Confirm? ==> enrolled == 0) &&
    (step.Progress? ==> enrolled == 1) &&
    enrolled <= 1 &&
    (Early(step) || step.Scanning? ==> fetches == 0 && !shown) &&
    fetches <= 1 && (shown ==> fetches == 0)
  }

  ghost predicate Accounted(w: World) {
    Tallied(w.m.step, w.m.showProfiles, w.scans, w.enrolls, w.fetches, Scans(w.issued), Enrolls(w.issued))
  }

  ghost predicate Good(w: World) {
    !w.panicked && WellFormed(w.m) && Accounted(w)
  }

  lemma IssuedSnoc(issued: seq<Cmd>, cmd: Cmd)
    ensures Scans(issued + [cmd]) == Scans(issued) + if cmd.CollectFingerprint? then 1 else 0
    ensures Enrolls(issued + [cmd]) == Enrolls(issued) + if cmd.RunEnroll? then 1 else 0
  {
    assert (issued + [cmd])[..|issued|] == issued;
  }

  predicate Early(step: Step) {
    step.UrlStep? || step.MethodStep? || step.CredsStep?
  }

  /** What a key may do to the step, and the command that goes with it. */
  ghost predicate KeyMoves(m: Model, o: Outcome) {
    o.Next? && WellFormed(o.m) && o.m.showProfiles == m.showProfiles && !o.cmd.FetchProfiles? &&
    (o.cmd.CollectFingerprint? <==> Early(m.step) && o.m.step.Scanning?) &&
    (o.cmd.RunEnroll? <==> m.step.Confirm? && o.m.step.Progress?) &&
    (Early(m.step) ==> Early(o.m.step) || o.m.step.Scanning?) &&
    (m.step.Confirm? ==> o.m.step.Confirm? || o.m.step.Progress?) &&
    (!Early(m.step) && !m.step.Confirm? ==> o.m.step == m.step)
  }

  lemma UrlKeyMoves(m: Model, key: string, edited: string)
    requires WellFormed(m) && m.step.UrlStep?
    ensures KeyMoves(m, UrlKey(m, key, edited))
  {
  }

  lemma EnterMethodMoves(m: Model)
    requires WellFormed(m) && m.step.MethodStep?
    ensures KeyMoves(m, EnterMethod(m))
  {
  }

  lemma MethodKeyMoves(m: Model, key: string)
    requires WellFormed(m) && m.step.MethodStep?
    ensures KeyMoves(m, MethodKey(m, key))
  {
    if key == "enter" {
      EnterMethodMoves(m);
    } else {
      assert MethodKey(m, key).Next? && !MethodKey(m, key).cmd.CollectFingerprint?;
    }
  }

  lemma MoveFocusMoves(m: Model, to: int)
    requires WellFormed(m) && m.step.CredsStep? && InRange(to, |m.credInputs|)
    ensures KeyMoves(m, MoveFocus(m, to))
  {
  }

  lemma TypingMoves(m: Model, edited: string)
    requires WellFormed(m) && m.step.CredsStep?
    ensures var typed := m.credInputs[m.credFocus := Edited(m.credInputs[m.credFocus], edited)];
            KeyMoves(m, Next(m.(credInputs := typed), Ui))
  {
  }

  lemma LeavingMoves(m: Model)
    requires WellFormed(m) && m.step.CredsStep?
    ensures KeyMoves(m, Next(m.(step := MethodStep), NoCmd)) && KeyMoves(m, StartScanning(m))
  {
  }

  lemma CredsKeyMoves(m: Model, key: string, edited: string)
    requires WellFormed(m) && m.step.CredsStep?
    ensures KeyMoves(m, CredsKey(m, key, edited))
  {
    var n := |m.credInputs|;
    assert n == 1 || n == 2;
    LeavingMoves(m);
    if key == "tab" || key == "down" {
      MoveFocusMoves(m, (m.credFocus + 1) % n);
    } else if key == "shift+tab" || key == "up" {
      MoveFocusMoves(m, (m.credFocus - 1 + n) % n);
    } else if key == "enter" {
      if m.credFocus < n - 1 {
        MoveFocusMoves(m, m.credFocus + 1);
      }
    } else {
      TypingMoves(m, edited);
    }
  }

  lemma StartEnrollMoves(m: Model)
    requires WellFormed(m) && m.step.Confirm?
    ensures KeyMoves(m, StartEnroll(m)) && StartEnroll(m).cmd.RunEnroll?
  {
  }

  lemma RowMoves(m: Model, row: int)
    requires WellFormed(m) && m.step.Confirm?
    ensures KeyMoves(m, Next(m, NoCmd)) && KeyMoves(m, Next(m, Quit))
    ensures m.showProfiles && InRange(row, |m.profiles|) ==> KeyMoves(m, Next(m.(profileCursor := row), NoCmd))
  {
  }

  lemma OtherKeyMoves(m: Model, key: string)
    requires WellFormed(m) && m.step.Confirm? && !Accepts(key)
    ensures KeyMoves(m, ConfirmKey(m, key)) && !ConfirmKey(m, key).cmd.RunEnroll?
  {
    if GoesUp(key) {
      RowMoves(m, m.profileCursor - 1);
    } else {
      RowMoves(m, m.profileCursor + 1);
    }
  }

  lemma ConfirmKeyMoves(m: Model, key: string)
    requires WellFormed(m) && m.step.Confirm?
    ensures KeyMoves(m, ConfirmKey(m, key))
    ensures ConfirmKey(m, key).cmd.RunEnroll? ==> Accepts(key) && ConfirmKey(m, key) == StartEnroll(m)
  {
    if Accepts(key) {
      StartEnrollMoves(m);
    } else {
      OtherKeyMoves(m, key);
    }
  }

  lemma HandleKeyMoves(m: Model, key: string, edited: string)
    requires WellFormed(m)
    ensures var o := HandleKey(m, key, edited);
            KeyMoves(m, o) && (o.cmd.RunEnroll? ==> m.step.Confirm? && Accepts(key) && o == StartEnroll(m))
  {
    match m.step {
      case UrlStep => UrlKeyMoves(m, key, edited);
      case MethodStep => MethodKeyMoves(m, key);
      case CredsStep => CredsKeyMoves(m, key, edited);
      case Confirm => ConfirmKeyMoves(m, key);
      case _ =>
    }
  }

  function OneIf(b: bool): nat {
    if b then 1 else 0
  }

  lemma KeyTallied(step: Step, shown: bool, scans: nat, enrolls: nat, fetches: nat, scanned: nat, enrolled: nat,
      m: Model, o: Outcome)
    requires Tallied(step, shown, scans, enrolls, fetches, scanned, enrolled)
    requires m.step == step && KeyMoves(m, o)
    ensures Tallied(o.m.step, shown, scans + OneIf(o.cmd.CollectFingerprint?), enrolls + OneIf(o.cmd.RunEnroll?),
                    fetches, scanned + OneIf(o.cmd.CollectFingerprint?), enrolled + OneIf(o.cmd.RunEnroll?))
  {
  }

  lemma KeyAccounted(w: World, msg: Msg, o: Outcome)
    requires Good(w) && msg.KeyMsg? && KeyMoves(w.m, o)
    ensures Accounted(After(w, msg, o))
  {
    IssuedSnoc(w.issued, o.cmd);
    KeyTallied(w.m.step, w.m.showProfiles, w.scans, w.enrolls, w.fetches, Scans(w.issued), Enrolls(w.issued), w.m, o);
  }

  lemma AfterKeyGood(w: World, msg: Msg, o: Outcome)
    requires Good(w) && msg.KeyMsg? && KeyMoves(w.m, o)
    ensures Good(After(w, msg, o))
  {
    KeyAccounted(w, msg, o);
  }

  /** The reply to the scan asks for confirmation, or finishes with its error. */
  ghost predicate Answers(m: Model, o: Outcome) {
    o.Next? && WellFormed(o.m) && o.m.showProfiles == m.showProfiles &&
    ((o.m.step.Finished? && o.cmd == NoCmd) || (o.m.step.Confirm? && o.cmd.FetchProfiles?))
  }

  lemma ScanReplyAnswers(m: Model, msg: Msg)
    requires WellFormed(m) && m.step.Scanning? && msg.FingerprintDone?
    ensures Answers(m, Update(m, msg))
  {
  }

  lemma AnswerTallied(shown: bool, scans: nat, enrolls: nat, fetches: nat, scanned: nat, enrolled: nat, fetch: bool)
    requires Tallied(Scanning, shown, scans, enrolls, fetches, scanned, enrolled)
    ensures scans == 1
    ensures Tallied(if fetch then Confirm else Finished, shown, 0, enrolls, fetches + OneIf(fetch), scanned, enrolled)
  {
  }

  lemma AnsweredGood(w: World, msg: Msg, o: Outcome)
    requires Good(w) && w.m.step.Scanning? && msg.FingerprintDone? && MayArrive(w, msg) && Answers(w.m, o)
    ensures Good(After(w, msg, o))
  {
    var scanned, enrolled := Scans(w.issued), Enrolls(w.issued);
    var w' := After(w, msg, o);
    assert Scans(w'.issued) == scanned && Enrolls(w'.issued) == enrolled by {
      IssuedSnoc(w.issued, o.cmd);
    }
    AnswerTallied(w.m.showProfiles, w.scans, w.enrolls, w.fetches, scanned, enrolled, o.cmd.FetchProfiles?);
  }

  lemma ScanReplyGood(w: World, msg: Msg)
    requires Good(w) && MayArrive(w, msg) && msg.FingerprintDone?
    ensures Good(Turn(w, msg))
  {
    assert w.m.step.Scanning?;
    ScanReplyAnswers(w.m, msg);
    AnsweredGood(w, msg, Update(w.m, msg));
  }

  /** The reply to the enrollment finishes the wizard. */
  lemma EnrollReplyFinishes(m: Model, msg: Msg)
    requires WellFormed(m) && m.step.Progress? && msg.EnrollDone?
    ensures var o := Update(m, msg);
            o.Next? && o.cmd == NoCmd && WellFormed(o.m) && o.m.step.Finished? && o.m.showProfiles == m.showProfiles
  {
  }

  lemma FinishedGood(w: World, msg: Msg, m: Model)
    requires Good(w) && w.m.step.Progress? && msg.EnrollDone? && MayArrive(w, msg)
    requires WellFormed(m) && m.step.Finished? && m.showProfiles == w.m.showProfiles
    ensures Good(After(w, msg, Next(m, NoCmd)))
  {
    IssuedSnoc(w.issued, NoCmd);
  }

  lemma EnrollReplyGood(w: World, msg: Msg)
    requires Good(w) && MayArrive(w, msg) && msg.EnrollDone?
    ensures Good(Turn(w, msg))
  {
    assert w.m.step.Progress?;
    EnrollReplyFinishes(w.m, msg);
    FinishedGood(w, msg, Update(w.m, msg).m);
  }

  /** Profiles change what is shown and nothing else. */
  lemma ProfileReplyShows(m: Model, msg: Msg)
    requires WellFormed(m) && msg.ProfileList? && !m.showProfiles
    ensures var o := Update(m, msg);
            o.Next? && o.cmd == NoCmd && WellFormed(o.m) && o.m.step == m.step
  {
  }

  lemma ShownGood(w: World, msg: Msg, m: Model)
    requires Good(w) && msg.ProfileList? && MayArrive(w, msg)
    requires WellFormed(m) && m.step == w.m.step
    ensures Good(After(w, msg, Next(m, NoCmd)))
  {
    IssuedSnoc(w.issued, NoCmd);
  }

  lemma ProfileReplyGood(w: World, msg: Msg)
    requires Good(w) && MayArrive(w, msg) && msg.ProfileList?
    ensures Good(Turn(w, msg))
  {
    assert w.fetches > 0;
    ProfileReplyShows(w.m, msg);
    ShownGood(w, msg, Update(w.m, msg).m);
  }

  lemma TurnGood(w: World, msg: Msg)
    requires Good(w) && MayArrive(w, msg)
    ensures Good(Turn(w, msg))
  {
    if msg.KeyMsg? {
      HandleKeyMoves(w.m, msg.key, msg.edited);
      AfterKeyGood(w, msg, HandleKey(w.m, msg.key, msg.edited));
    } else if msg.FingerprintDone? {
      ScanReplyGood(w, msg);
    } else if msg.EnrollDone? {
      EnrollReplyGood(w, msg);
    } else if msg.ProfileList? {
      ProfileReplyGood(w, msg);
    } else {
      IssuedSnoc(w.issued, Update(w.m, msg).cmd);
    }
  }

  /** In every run, whatever the keys and however the replies interleave: the wizard never
      indexes out of range, its cursors and inputs fit together, at most one scan and at
      most one enrollment are ever issued, and each awaits its reply in its own step. */
  lemma {:induction false} EveryRunGood(p: Prefill, msgs: seq<Msg>)
    requires Run(p, msgs).Some?
    ensures Good(Run(p, msgs).value)
    ensures Scans(Run(p, msgs).value.issued) <= 1 && Enrolls(Run(p, msgs).value.issued) <= 1
  {
    if msgs != [] {
      EveryRunGood(p, msgs[..|msgs| - 1]);
      TurnGood(Run(p, msgs[..|msgs| - 1]).value, msgs[|msgs| - 1]);
    }
  }

  lemma FocusMovedBack(m: Model, to: int)
    requires WellFormed(m) && m.step.CredsStep? && InRange(to, |m.credInputs|)
    ensures MoveFocus(m, to).Next? && MoveFocus(MoveFocus(m, to).m, m.credFocus) == Next(m, NoCmd)
  {
    var m' := MoveFocus(m, to).m;
    assert MoveFocus(m', m.credFocus).m.credInputs == m.credInputs;
  }

  lemma NextIsPrevious(focus: int, n: nat)
    requires 1 <= n <= 2 && InRange(focus, n)
    ensures (focus + 1) % n == (focus - 1 + n) % n && ((focus + 1) % n + 1) % n == focus
  {
  }

  lemma TabMoves(m: Model, edited: string)
    requires m.credInputs != []
    ensures CredsKey(m, "tab", edited) == MoveFocus(m, (m.credFocus + 1) % |m.credInputs|)
    ensures CredsKey(m, "shift+tab", edited)
         == MoveFocus(m, (m.credFocus - 1 + |m.credInputs|) % |m.credInputs|)
  {
  }

  /** With one input or two, moving on and moving back lead to the same one. */
  lemma TabAndBack(m: Model, edited: string, to: int)
    requires WellFormed(m) && m.step.CredsStep? && to == (m.credFocus + 1) % |m.credInputs|
    ensures CredsKey(m, "tab", edited) == MoveFocus(m, to) && CredsKey(m, "shift+tab", edited) == MoveFocus(m, to)
  {
    NextIsPrevious(m.credFocus, |m.credInputs|);
    TabMoves(m, edited);
  }

  lemma FocusMoved(m: Model, to: int)
    requires WellFormed(m) && m.step.CredsStep? && InRange(to, |m.credInputs|)
    ensures var o := MoveFocus(m, to);
            o.Next? && WellFormed(o.m) && o.m.step.CredsStep? && |o.m.credInputs| == |m.credInputs| &&
                o.m.credFocus == to
  {
  }

  /** Tab and shift+tab undo each other on the credentials form, in focus and in text. */
  lemma TabsUndone(m: Model, edited: string)
    requires WellFormed(m) && m.step.CredsStep?
    ensures CredsKey(m, "tab", edited).Next? && CredsKey(m, "shift+tab", edited).Next?
    ensures CredsKey(CredsKey(m, "tab", edited).m, "shift+tab", edited) == Next(m, NoCmd)
    ensures CredsKey(CredsKey(m, "shift+tab", edited).m, "tab", edited) == Next(m, NoCmd)
  {
    var to := (m.credFocus + 1) % |m.credInputs|;
    TabAndBack(m, edited, to);
    FocusMoved(m, to);
    FocusMovedBack(m, to);
    NextIsPrevious(m.credFocus, |m.credInputs|);
    TabAndBack(MoveFocus(m, to).m, edited, m.credFocus);
  }

  // --------------------------------------------------------- confirmation

  ghost predicate ScanSucceeded(msgs: seq<Msg>, before: nat) {
    exists i :: 0 <= i < before && i < |msgs| && msgs[i].FingerprintDone? && msgs[i].err.None?
  }

  /** The n-th message is a confirm key, given after a successful scan. */
  ghost predicate Confirms(msgs: seq<Msg>, n: nat) {
    n < |msgs| && msgs[n].KeyMsg? && Accepts(msgs[n].key) && ScanSucceeded(msgs, n)
  }

  /** Only the confirm step enrolls, and only a successful scan leads to it. */
  lemma TurnConfirms(w: World, msg: Msg)
    requires Good(w) && MayArrive(w, msg)
    ensures Update(w.m, msg).Next?
    ensures Update(w.m, msg).cmd.RunEnroll? ==>
              w.m.step.Confirm? && msg.KeyMsg? && Accepts(msg.key) && Update(w.m, msg) == StartEnroll(w.m)
    ensures Update(w.m, msg).m.step.Confirm? ==> w.m.step.Confirm? || (msg.FingerprintDone? && msg.err.None?)
  {
    if msg.KeyMsg? {
      HandleKeyMoves(w.m, msg.key, msg.edited);
    }
  }

  ghost predicate ConfirmedSoFar(msgs: seq<Msg>, w: World) {
    |w.issued| == |msgs| &&
    (w.m.step.Confirm? ==> ScanSucceeded(msgs, |msgs|)) &&
    forall n: nat :: n < |w.issued| && w.issued[n].RunEnroll? ==> Confirms(msgs, n)
  }

  lemma AfterConfirmed(msgs: seq<Msg>, w: World, msg: Msg, o: Outcome)
    requires ConfirmedSoFar(msgs, w) && MayArrive(w, msg) && o.Next?
    requires o.cmd.RunEnroll? ==> w.m.step.Confirm? && msg.KeyMsg? && Accepts(msg.key)
    requires o.m.step.Confirm? ==> w.m.step.Confirm? || (msg.FingerprintDone? && msg.err.None?)
    ensures ConfirmedSoFar(msgs + [msg], After(w, msg, o))
  {
    var all := msgs + [msg];
    assert all[|msgs|] == msg;
    forall n: nat | n <= |msgs| && ScanSucceeded(msgs, n)
      ensures ScanSucceeded(all, n)
    {
      var i :| 0 <= i < n && i < |msgs| && msgs[i].FingerprintDone? && msgs[i].err.None?;
      assert all[i] == msgs[i];
    }
    forall n: nat | n < |msgs| && Confirms(msgs, n)
      ensures Confirms(all, n)
    {
    }
  }

  lemma RunNext(p: Prefill, before: seq<Msg>, msg: Msg)
    requires Run(p, before + [msg]).Some?
    ensures Run(p, before).Some? && MayArrive(Run(p, before).value, msg)
    ensures Run(p, before + [msg]).value == Turn(Run(p, before).value, msg)
  {
    assert (before + [msg])[..|before|] == before;
  }

  lemma ConfirmedTurn(msgs: seq<Msg>, w: World, msg: Msg)
    requires ConfirmedSoFar(msgs, w) && Good(w) && MayArrive(w, msg)
    ensures ConfirmedSoFar(msgs + [msg], Turn(w, msg))
  {
    TurnConfirms(w, msg);
    AfterConfirmed(msgs, w, msg, Update(w.m, msg));
  }

  lemma {:induction false} ConfirmedAlong(p: Prefill, msgs: seq<Msg>) returns (w: World)
    requires Run(p, msgs).Some?
    ensures Run(p, msgs) == Some(w) && ConfirmedSoFar(msgs, w)
  {
    if msgs == [] {
      w := Begin(p);
    } else {
      var before, msg := msgs[..|msgs| - 1], msgs[|msgs| - 1];
      assert msgs == before + [msg];
      RunNext(p, before, msg);
      EveryRunGood(p, before);
      var w0 := ConfirmedAlong(p, before);
      ConfirmedTurn(before, w0, msg);
      w := Turn(w0, msg);
    }
  }

  /** Enrollment is issued only by a confirm key that follows a successful scan. */
  lemma EnrollmentIsConfirmed(p: Prefill, msgs: seq<Msg>)
    requires Run(p, msgs).Some?
    ensures ConfirmedSoFar(msgs, Run(p, msgs).value)
  {
    var _ := ConfirmedAlong(p, msgs);
  }
}
