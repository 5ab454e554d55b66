/** Where the text the enrollment wizard of cmd/kontango/enroll_tui.go sends was typed: the
    last text given to an input while it had the focus, or what it was prefilled with. */
module WizardTyping {
  import opened Common
  import opened Histories
  import opened Strings
  import opened Wizard
  import opened WizardEnrollment

  /** The models a run goes through. */
  function Models(p: Prefill, msgs: seq<Msg>): (models: seq<Model>)
    ensures |models| == |msgs| + 1
    ensures forall n :: 0 <= n <= |msgs| ==> models[n] == At(p, msgs, n).m
  {
    seq(|msgs| + 1, n requires 0 <= n <= |msgs| => At(p, msgs, n).m)
  }

  /** No reply arrives out of its step. */
  predicate Timely(m: Model, msg: Msg) {
    (msg.FingerprintDone? ==> m.step.Scanning?) && (msg.EnrollDone? ==> m.step.Progress?) && !msg.ProgressLine?
  }

  /** One turn of a run that goes well. */
  ghost predicate Turned(m: Model, msg: Msg, m': Model) {
    WellFormed(m) && Timely(m, msg) && Update(m, msg).Next? && m' == Update(m, msg).m
  }

  ghost predicate AllTurned(models: seq<Model>, msgs: seq<Msg>) {
    |models| == |msgs| + 1 && forall k :: 0 <= k < |msgs| ==> Turned(models[k], msgs[k], models[k + 1])
  }

  lemma GoodTurn(w: World, msg: Msg)
    requires Good(w) && MayArrive(w, msg) && Update(w.m, msg).Next?
    ensures Turned(w.m, msg, Turn(w, msg).m)
  {
  }

  lemma TurnAt(p: Prefill, msgs: seq<Msg>, k: nat)
    requires k < |msgs| && Run(p, msgs[..k]).Some? && MayArrive(At(p, msgs, k), msgs[k])
    ensures At(p, msgs, k + 1) == Turn(At(p, msgs, k), msgs[k])
  {
    assert msgs[..k + 1] == msgs[..k] + [msgs[k]];
    Snoc(p, msgs[..k], msgs[k]);
  }

  lemma TurnedAt(p: Prefill, msgs: seq<Msg>, k: nat)
    requires Run(p, msgs).Some? && k < |msgs|
    ensures Turned(At(p, msgs, k).m, msgs[k], At(p, msgs, k + 1).m)
  {
    IssuedAt(p, msgs, k);
    TurnAt(p, msgs, k);
    GoodTurn(At(p, msgs, k), msgs[k]);
  }

  lemma RunTurned(p: Prefill, msgs: seq<Msg>)
    requires Run(p, msgs).Some?
    ensures AllTurned(Models(p, msgs), msgs) && Models(p, msgs)[0] == NewEnrollModel(p)
  {
    forall k | 0 <= k < |msgs|
      ensures Turned(Models(p, msgs)[k], msgs[k], Models(p, msgs)[k + 1])
    {
      TurnedAt(p, msgs, k);
    }
    assert msgs[..0] == [];
  }

  // ---------------------------------------------------------------- typing

  predicate IsKey(msg: Msg, key: string) {
    msg.KeyMsg? && msg.key == key
  }

  /** A key that goes to the focused input of the credentials form. */
  predicate Types(m: Model, msg: Msg) {
    m.step.CredsStep? && msg.KeyMsg? &&
    msg.key !in ["ctrl+c", "esc", "tab", "down", "shift+tab", "up", "enter"]
  }

  predicate TypesFirst(m: Model, msg: Msg) {
    Types(m, msg) && m.credFocus == 0
  }

  predicate TypesSecond(m: Model, msg: Msg) {
    Types(m, msg) && m.credFocus == 1
  }

  predicate TypesUrl(m: Model, msg: Msg) {
    m.step.UrlStep? && msg.KeyMsg? && msg.key !in ["ctrl+c", "esc", "enter"]
  }

  /** The text the input has after the key. */
  function Typed(msg: Msg): string {
    match msg
    case KeyMsg(_, edited) => edited
    case _ => ""
  }

  function FirstText(m: Model): string {
    if |m.credInputs| > 0 then m.credInputs[0].value else ""
  }

  function SecondText(m: Model): string {
    if |m.credInputs| > 1 then m.credInputs[1].value else ""
  }

  function UrlText(m: Model): string {
    m.url.value
  }

  /** The choice of a method. */
  predicate Chooses(m: Model, msg: Msg) {
    m.step.MethodStep? && IsKey(msg, "enter")
  }

  /** A method has been chosen, and not been given up again. */
  predicate Chosen(m: Model) {
    m.step.CredsStep? || m.step.Scanning? || m.step.Confirm?
  }

  /** What the inputs start with. */
  function FirstGiven(p: Prefill, cursor: int): string {
    if cursor == APPROLE then Clip(p.roleID, 128) else Clip(p.session, 256)
  }

  function SecondGiven(p: Prefill, cursor: int): string {
    if cursor == APPROLE then Clip(p.secretID, 128) else ""
  }

  /** What a key leaves in the two inputs. */
  ghost predicate TextKept(m: Model, msg: Msg, m': Model) {
    FirstText(m') == (if TypesFirst(m, msg) then Typed(msg) else FirstText(m)) &&
    SecondText(m') == (if TypesSecond(m, msg) then Typed(msg) else SecondText(m))
  }

  lemma FocusKeepsText(m: Model, to: int)
    requires WellFormed(m) && m.step.CredsStep? && InRange(to, |m.credInputs|)
    ensures MoveFocus(m, to).Next?
    ensures FirstText(MoveFocus(m, to).m) == FirstText(m) && SecondText(MoveFocus(m, to).m) == SecondText(m)
  {
  }

  lemma TypingText(m: Model, msg: Msg)
    requires WellFormed(m) && Types(m, msg)
    ensures TextKept(m, msg, CredsKey(m, msg.key, msg.edited).m)
  {
  }

  lemma MovingText(m: Model, msg: Msg)
    requires WellFormed(m) && m.step.CredsStep? && msg.KeyMsg? && !Types(m, msg)
    ensures TextKept(m, msg, CredsKey(m, msg.key, msg.edited).m)
  {
    var n := |m.credInputs|;
    if msg.key == "tab" || msg.key == "down" {
      FocusKeepsText(m, (m.credFocus + 1) % n);
    } else if msg.key == "shift+tab" || msg.key == "up" {
      FocusKeepsText(m, (m.credFocus - 1 + n) % n);
    } else if msg.key == "enter" && m.credFocus < n - 1 {
      FocusKeepsText(m, m.credFocus + 1);
    }
  }

  lemma MethodKeyText(m: Model, key: string)
    requires WellFormed(m) && m.step.MethodStep?
    ensures var o := MethodKey(m, key);
            if key == "enter" && m.methodCursor != 0 then
              FirstText(o.m) == FirstGiven(m.prefill, m.methodCursor) &&
              SecondText(o.m) == SecondGiven(m.prefill, m.methodCursor)
            else o.m.credInputs == m.credInputs
  {
  }

  lemma OtherText(m: Model, msg: Msg)
    requires WellFormed(m) && !m.step.CredsStep? && !m.step.MethodStep? && Update(m, msg).Next?
    ensures Update(m, msg).m.credInputs == m.credInputs
  {
  }

  /** The text of the inputs changes where it is typed, and where a method is chosen. */
  lemma TurnText(m: Model, msg: Msg, m': Model)
    requires Turned(m, msg, m')
    ensures Chooses(m, msg) && m.methodCursor != 0 ==>
              FirstText(m') == FirstGiven(m.prefill, m.methodCursor) &&
              SecondText(m') == SecondGiven(m.prefill, m.methodCursor)
    ensures !Chooses(m, msg) ==> TextKept(m, msg, m')
  {
    if m.step.CredsStep? {
      if msg.KeyMsg? {
        if Types(m, msg) {
          TypingText(m, msg);
        } else {
          MovingText(m, msg);
        }
      }
    } else if m.step.MethodStep? {
      if msg.KeyMsg? {
        MethodKeyText(m, msg.key);
      }
    } else {
      OtherText(m, msg);
    }
  }

  // ------------------------------------------------------ step and URL

  /** The step and the method, from one turn to the next. */
  ghost predicate StepKept(m: Model, msg: Msg, m': Model) {
    m'.prefill == m.prefill &&
    (Chosen(m') ==> m'.methodCursor == m.methodCursor && (Chosen(m) || Chooses(m, msg)))
  }

  lemma CredsStepKept(m: Model, key: string, edited: string)
    requires WellFormed(m) && m.step.CredsStep?
    ensures StepKept(m, KeyMsg(key, edited), CredsKey(m, key, edited).m)
  {
    CredsKeyMoves(m, key, edited);
  }

  lemma KeyStepKept(m: Model, key: string, edited: string)
    requires WellFormed(m) && !m.step.CredsStep? && HandleKey(m, key, edited).Next?
    ensures StepKept(m, KeyMsg(key, edited), HandleKey(m, key, edited).m)
  {
  }

  lemma TurnStep(m: Model, msg: Msg, m': Model)
    requires Turned(m, msg, m')
    ensures StepKept(m, msg, m')
  {
    if msg.KeyMsg? {
      if m.step.CredsStep? {
        CredsStepKept(m, msg.key, msg.edited);
      } else {
        KeyStepKept(m, msg.key, msg.edited);
      }
    }
  }

  /** The URL sent for a text that is not blank. */
  function Completed(text: string): string {
    if "http" <= TrimSpace(text) then text else Clip("https://" + TrimSpace(text), 256)
  }

  /** Nothing but the first step's keys concerns the URL. */
  predicate UrlLeft(m: Model, m': Model) {
    !m'.step.UrlStep? && m'.url == m.url
  }

  /** The URL is typed at its step, and completed when that step is left. */
  ghost predicate UrlKept(m: Model, msg: Msg, m': Model) {
    if !m.step.UrlStep? then UrlLeft(m, m')
    else if m'.step.UrlStep? then
      m'.url.focused == m.url.focused &&
      (m.url.focused ==> UrlText(m') == if TypesUrl(m, msg) then Typed(msg) else UrlText(m))
    else IsKey(msg, "enter") && UrlText(m') == Completed(UrlText(m)) && TrimSpace(UrlText(m)) != ""
  }

  lemma UrlKeyKept(m: Model, key: string, edited: string)
    requires m.step.UrlStep?
    ensures UrlKept(m, KeyMsg(key, edited), UrlKey(m, key, edited).m)
  {
  }

  lemma CredsKeyLeft(m: Model, key: string, edited: string)
    requires m.step.CredsStep? && CredsKey(m, key, edited).Next?
    ensures UrlLeft(m, CredsKey(m, key, edited).m)
  {
  }

  lemma OtherKeyLeft(m: Model, key: string, edited: string)
    requires !m.step.UrlStep? && !m.step.CredsStep? && HandleKey(m, key, edited).Next?
    ensures UrlLeft(m, HandleKey(m, key, edited).m)
  {
  }

  lemma ReplyLeft(m: Model, msg: Msg)
    requires !m.step.UrlStep? && !msg.KeyMsg?
    ensures UrlLeft(m, Update(m, msg).m)
  {
  }

  lemma TurnUrl(m: Model, msg: Msg, m': Model)
    requires Turned(m, msg, m')
    ensures UrlKept(m, msg, m')
  {
    if !msg.KeyMsg? {
      if !m.step.UrlStep? {
        ReplyLeft(m, msg);
      }
    } else if m.step.UrlStep? {
      UrlKeyKept(m, msg.key, msg.edited);
    } else if m.step.CredsStep? {
      CredsKeyLeft(m, msg.key, msg.edited);
    } else {
      OtherKeyLeft(m, msg.key, msg.edited);
    }
  }

  // ------------------------------------------------------------- over runs

  lemma {:induction false} PrefillKept(models: seq<Model>, msgs: seq<Msg>, n: nat)
    requires AllTurned(models, msgs) && n <= |msgs|
    ensures models[n].prefill == models[0].prefill
  {
    if n > 0 {
      PrefillKept(models, msgs, n - 1);
      TurnStep(models[n - 1], msgs[n - 1], models[n]);
    }
  }

  /** Message c chose the method that is in force when message n comes. */
  ghost predicate ChosenAt(models: seq<Model>, msgs: seq<Msg>, c: nat, n: nat)
    requires AllTurned(models, msgs) && n <= |msgs|
  {
    c < n && Chooses(models[c], msgs[c]) &&
    forall k :: c < k <= n ==> Chosen(models[k]) && models[k].methodCursor == models[c].methodCursor
  }

  lemma {:induction false} FindChoice(models: seq<Model>, msgs: seq<Msg>, n: nat) returns (c: nat)
    requires AllTurned(models, msgs) && n <= |msgs| && !Chosen(models[0]) && Chosen(models[n])
    ensures ChosenAt(models, msgs, c, n)
  {
    var k := n - 1;
    TurnStep(models[k], msgs[k], models[n]);
    if Chosen(models[k]) {
      c := FindChoice(models, msgs, k);
    } else {
      c := k;
    }
  }

  /** From the choice of a method on, the inputs hold what was typed last into them. */
  lemma TextSince(models: seq<Model>, msgs: seq<Msg>, c: nat, n: nat)
    requires AllTurned(models, msgs) && n <= |msgs| && ChosenAt(models, msgs, c, n) && models[c].methodCursor != 0
    ensures var p, cursor := models[c].prefill, models[c].methodCursor;
            LastSet(models, msgs, c + 1, n, FirstGiven(p, cursor), TypesFirst, Typed, FirstText(models[n])) &&
            LastSet(models, msgs, c + 1, n, SecondGiven(p, cursor), TypesSecond, Typed, SecondText(models[n]))
  {
    TurnText(models[c], msgs[c], models[c + 1]);
    forall k | c + 1 <= k < n
      ensures TextKept(models[k], msgs[k], models[k + 1])
    {
      TurnText(models[k], msgs[k], models[k + 1]);
    }
    KeepsLast(models, msgs, c + 1, n, FirstText, TypesFirst, Typed);
    KeepsLast(models, msgs, c + 1, n, SecondText, TypesSecond, Typed);
  }

  /** The wizard has been at its first step so far. */
  ghost predicate AtUrl(models: seq<Model>, n: nat)
    requires n < |models|
  {
    forall k :: 0 <= k <= n ==> models[k].step.UrlStep? && models[k].url.focused
  }

  lemma {:induction false} FindUrl(models: seq<Model>, msgs: seq<Msg>, n: nat) returns (u: nat)
    requires AllTurned(models, msgs) && n <= |msgs| && models[0].step.UrlStep? && models[0].url.focused
    ensures models[n].step.UrlStep? ==> u == n && AtUrl(models, n)
    ensures !models[n].step.UrlStep? ==>
              u < n && AtUrl(models, u) && IsKey(msgs[u], "enter") && TrimSpace(UrlText(models[u])) != "" &&
              UrlText(models[n]) == Completed(UrlText(models[u])) &&
              forall k :: u < k <= n ==> !models[k].step.UrlStep?
  {
    u := n;
    if n > 0 {
      var k := n - 1;
      var u' := FindUrl(models, msgs, k);
      TurnUrl(models[k], msgs[k], models[n]);
      if !models[n].step.UrlStep? {
        u := u';
      }
    }
  }

  lemma UrlSince(models: seq<Model>, msgs: seq<Msg>, u: nat)
    requires AllTurned(models, msgs) && u <= |msgs| && AtUrl(models, u) && UrlText(models[0]) == ""
    ensures LastSet(models, msgs, 0, u, "", TypesUrl, Typed, UrlText(models[u]))
  {
    forall k | 0 <= k < u
      ensures UrlText(models[k + 1]) == if TypesUrl(models[k], msgs[k]) then Typed(msgs[k]) else UrlText(models[k])
    {
      TurnUrl(models[k], msgs[k], models[k + 1]);
    }
    KeepsLast(models, msgs, 0, u, UrlText, TypesUrl, Typed);
  }

  lemma {:induction false} UrlGiven(models: seq<Model>, msgs: seq<Msg>, n: nat)
    requires AllTurned(models, msgs) && n <= |msgs| && !models[0].step.UrlStep?
    ensures !models[n].step.UrlStep? && models[n].url == models[0].url
  {
    if n > 0 {
      UrlGiven(models, msgs, n - 1);
      TurnUrl(models[n - 1], msgs[n - 1], models[n]);
    }
  }

  // ------------------------------------------------------------ what is sent

  /** The credentials are those last typed since the method was chosen, each into its own
      input, or what was prefilled; and none of another method. */
  ghost predicate CredentialsTyped(p: Prefill, models: seq<Model>, msgs: seq<Msg>, n: nat, cmd: Cmd)
    requires AllTurned(models, msgs) && n <= |msgs| && cmd.RunEnroll?
  {
    exists c: nat :: ChosenAt(models, msgs, c, n) &&
      (if models[c].methodCursor == APPROLE then
         LastSet(models, msgs, c + 1, n, Clip(p.roleID, 128), TypesFirst, Typed, cmd.roleID) &&
         LastSet(models, msgs, c + 1, n, Clip(p.secretID, 128), TypesSecond, Typed, cmd.secretID)
       else cmd.roleID == "" && cmd.secretID == "") &&
      (if models[c].methodCursor == INVITE then
         LastSet(models, msgs, c + 1, n, Clip(p.session, 256), TypesFirst, Typed, cmd.session)
       else cmd.session == "")
  }

  /** The URL is the prefilled one, or the text last typed when the first step was left,
      with "https://" before what there is but white space, if that does not begin with
      "http". */
  ghost predicate UrlTyped(p: Prefill, models: seq<Model>, msgs: seq<Msg>, n: nat, url: string)
    requires AllTurned(models, msgs) && n <= |msgs|
  {
    if p.url != "" then url == Clip(p.url, 256)
    else
      exists u: nat, text ::
        u < n && LastSet(models, msgs, 0, u, "", TypesUrl, Typed, text) && TrimSpace(text) != "" &&
        IsKey(msgs[u], "enter") && AtUrl(models, u) && (forall k :: u < k <= n ==> !models[k].step.UrlStep?) &&
        url == if "http" <= TrimSpace(text) then text else Clip("https://" + TrimSpace(text), 256)
  }

  lemma CredentialsSource(p: Prefill, models: seq<Model>, msgs: seq<Msg>, n: nat, cmd: Cmd)
    requires AllTurned(models, msgs) && n <= |msgs| && models[0] == NewEnrollModel(p)
    requires cmd.RunEnroll? && Chosen(models[n]) && CarriesCredentials(models[n], cmd)
    ensures CredentialsTyped(p, models, msgs, n, cmd)
  {
    var c := FindChoice(models, msgs, n);
    PrefillKept(models, msgs, c);
    if models[c].methodCursor != 0 {
      TextSince(models, msgs, c, n);
    }
  }

  lemma UrlSource(p: Prefill, models: seq<Model>, msgs: seq<Msg>, n: nat)
    requires AllTurned(models, msgs) && n <= |msgs| && models[0] == NewEnrollModel(p) && !models[n].step.UrlStep?
    ensures UrlTyped(p, models, msgs, n, UrlText(models[n]))
  {
    if p.url != "" {
      UrlGiven(models, msgs, n);
    } else {
      var u := FindUrl(models, msgs, n);
      UrlSince(models, msgs, u);
    }
  }

  /** Whatever the run: an issued enrollment carries what the user typed last into each
      input, or what it was prefilled with. */
  lemma TypedSent(p: Prefill, msgs: seq<Msg>, n: nat)
    requires Run(p, msgs).Some? && n < |Run(p, msgs).value.issued| <= |msgs|
    requires Run(p, msgs).value.issued[n].RunEnroll?
    ensures AllTurned(Models(p, msgs), msgs)
    ensures var models, cmd := Models(p, msgs), Run(p, msgs).value.issued[n];
            CredentialsTyped(p, models, msgs, n, cmd) && UrlTyped(p, models, msgs, n, cmd.url)
  {
    var models := Models(p, msgs);
    RunTurned(p, msgs);
    IssuedAt(p, msgs, n);
    TurnConfirms(At(p, msgs, n), msgs[n]);
    ConfirmSends(models[n]);
    var cmd := StartEnroll(models[n]).cmd;
    CredentialsSource(p, models, msgs, n, cmd);
    UrlSource(p, models, msgs, n);
  }

  /** Profiles are asked for at that URL, and after a successful scan only. */
  lemma ProfilesAsked(p: Prefill, msgs: seq<Msg>, n: nat)
    requires Run(p, msgs).Some? && n < |Run(p, msgs).value.issued| <= |msgs|
    ensures AllTurned(Models(p, msgs), msgs)
    ensures var cmd := Run(p, msgs).value.issued[n];
            (cmd.FetchProfiles? <==> msgs[n].FingerprintDone? && msgs[n].err == None) &&
            (cmd.FetchProfiles? ==> UrlTyped(p, Models(p, msgs), msgs, n, cmd.url))
  {
    var models := Models(p, msgs);
    RunTurned(p, msgs);
    IssuedAt(p, msgs, n);
    var cmd := Update(models[n], msgs[n]).cmd;
    if msgs[n].KeyMsg? {
      HandleKeyMoves(models[n], msgs[n].key, msgs[n].edited);
    }
    if cmd.FetchProfiles? {
      assert Turned(models[n], msgs[n], models[n + 1]) && cmd.url == UrlText(models[n]);
      UrlSource(p, models, msgs, n);
    }
  }

  // ------------------------------------------------------- runs that send

  /** The messages lead from the one world to the other. */
  ghost predicate Reaches(p: Prefill, msgs: seq<Msg>, w: World) {
    Run(p, msgs) == Some(w)
  }

  lemma ReachesNext(p: Prefill, msgs: seq<Msg>, w: World, msg: Msg) returns (w': World)
    requires Reaches(p, msgs, w) && MayArrive(w, msg)
    ensures w' == Turn(w, msg) && Reaches(p, msgs + [msg], w')
  {
    Snoc(p, msgs, msg);
    w' := Turn(w, msg);
  }

  /** The last command, and the form it was issued with. */
  ghost predicate Sent(w: World, cmd: Cmd) {
    w.issued != [] && w.issued[|w.issued| - 1] == cmd && !w.panicked
  }

  /** The command this form is confirmed with while no profile is chosen. */
  function Command(m: Model): Cmd {
    RunEnroll(UrlText(m),
              if m.methodCursor == INVITE then FirstText(m) else "",
              if m.methodCursor == APPROLE then FirstText(m) else "",
              if m.methodCursor == APPROLE then SecondText(m) else "",
              "")
  }

  /** The form has the inputs of its method, and no profiles are shown. */
  predicate Ready(w: World) {
    !w.panicked && !w.m.showProfiles &&
    (w.m.methodCursor == APPROLE ==> |w.m.credInputs| == 2) &&
    (w.m.methodCursor == INVITE ==> |w.m.credInputs| == 1)
  }

  lemma ScanReplies(p: Prefill, msgs: seq<Msg>, w: World, fp: string) returns (w': World)
    requires Reaches(p, msgs, w) && Ready(w) && w.m.step.Scanning? && w.scans > 0
    ensures Reaches(p, msgs + [FingerprintDone(fp, None)], w')
    ensures w'.m == w.m.(fingerprint := Some(fp), step := Confirm) && !w'.panicked
  {
    w' := ReachesNext(p, msgs, w, FingerprintDone(fp, None));
  }

  lemma YConfirms(p: Prefill, msgs: seq<Msg>, w: World) returns (w': World)
    requires Reaches(p, msgs, w) && Ready(w) && w.m.step.Confirm?
    ensures Reaches(p, msgs + [Key("y")], w') && Sent(w', Command(w.m))
  {
    w' := ReachesNext(p, msgs, w, Key("y"));
  }

  /** The scan replies, and y confirms. */
  lemma ConfirmedAfterScan(p: Prefill, msgs: seq<Msg>, w: World, fp: string) returns (w': World)
    requires Reaches(p, msgs, w) && Ready(w) && w.m.step.Scanning? && w.scans > 0
    ensures Reaches(p, (msgs + [FingerprintDone(fp, None)]) + [Key("y")], w') && Sent(w', Command(w.m))
  {
    var w1 := ScanReplies(p, msgs, w, fp);
    w' := YConfirms(p, msgs + [FingerprintDone(fp, None)], w1);
  }

  /** How many inputs the form of the preselected method has. */
  function Inputs(p: Prefill): nat {
    if p.roleID != "" || p.secretID != "" then 2 else if p.session != "" then 1 else 0
  }

  /** The prefilled form, at this step. */
  ghost predicate Filled(p: Prefill, m: Model, step: Step) {
    m.step == step && !m.showProfiles && UrlText(m) == Clip(p.url, 256) && |m.credInputs| == Inputs(p) &&
    match Inputs(p)
    case 0 => m.methodCursor == 0
    case 1 => m.methodCursor == INVITE && FirstText(m) == Clip(p.session, 256)
    case _ => m.methodCursor == APPROLE && FirstText(m) == Clip(p.roleID, 128) && SecondText(m) == Clip(p.secretID, 128)
  }

  lemma EnterOnFirst(p: Prefill)
    requires p.url != ""
    ensures var o := Update(NewEnrollModel(p), Key("enter"));
            o.Next? && Filled(p, o.m, if Inputs(p) == 0 then Scanning else CredsStep) &&
            o.cmd.CollectFingerprint? == (Inputs(p) == 0) && o.m.credFocus == 0
  {
  }

  /** The method that is preselected is chosen. */
  lemma Preselected(p: Prefill) returns (msgs: seq<Msg>, w: World)
    requires p.url != ""
    ensures msgs == [Key("enter")] && Reaches(p, msgs, w) && !w.panicked
    ensures Filled(p, w.m, if Inputs(p) == 0 then Scanning else CredsStep)
    ensures if Inputs(p) == 0 then w.scans > 0 else w.m.credFocus == 0
  {
    var none: seq<Msg> := [];
    EnterOnFirst(p);
    w := ReachesNext(p, none, Begin(p), Key("enter"));
    msgs := none + [Key("enter")];
  }

  /** Enter moves on to the second input. */
  lemma EnterFirst(p: Prefill, msgs: seq<Msg>, w: World) returns (w': World)
    requires Reaches(p, msgs, w) && !w.panicked && Filled(p, w.m, CredsStep) && Inputs(p) == 2 && w.m.credFocus == 0
    ensures Reaches(p, msgs + [Key("enter")], w') && Filled(p, w'.m, CredsStep) && w'.m.credFocus == 1 && !w'.panicked
  {
    w' := ReachesNext(p, msgs, w, Key("enter"));
  }

  /** Enter on the last input scans. */
  lemma EnterLast(p: Prefill, msgs: seq<Msg>, w: World) returns (w': World)
    requires Reaches(p, msgs, w) && !w.panicked && Filled(p, w.m, CredsStep) && w.m.credFocus == Inputs(p) - 1
    ensures Reaches(p, msgs + [Key("enter")], w') && Filled(p, w'.m, Scanning) && w'.scans > 0 && !w'.panicked
  {
    w' := ReachesNext(p, msgs, w, Key("enter"));
    assert w'.m == w.m.(step := Scanning);
  }

  /** Enter chooses the preselected method and ends each of its inputs. */
  function Enters(n: nat): seq<Msg> {
    if n == 2 then [Key("enter")] + [Key("enter")] + [Key("enter")]
    else if n == 1 then [Key("enter")] + [Key("enter")]
    else [Key("enter")]
  }

  lemma PrefilledScan(p: Prefill) returns (w: World)
    requires p.url != ""
    ensures Reaches(p, Enters(Inputs(p)), w) && Filled(p, w.m, Scanning) && w.scans > 0 && !w.panicked
  {
    var msgs;
    msgs, w := Preselected(p);
    if Inputs(p) == 2 {
      w := EnterFirst(p, msgs, w);
      w := EnterLast(p, msgs + [Key("enter")], w);
    } else if Inputs(p) == 1 {
      w := EnterLast(p, msgs, w);
    }
  }

  /** With a prefilled URL and credentials, confirming everything sends just these, each as
      what it was given as, up to what the inputs hold. */
  lemma PrefilledSent(p: Prefill, fp: string) returns (w: World)
    requires p.url != ""
    ensures Reaches(p, (Enters(Inputs(p)) + [FingerprintDone(fp, None)]) + [Key("y")], w)
    ensures Sent(w, RunEnroll(Clip(p.url, 256),
                              if Inputs(p) == 1 then Clip(p.session, 256) else "",
                              if Inputs(p) == 2 then Clip(p.roleID, 128) else "",
                              if Inputs(p) == 2 then Clip(p.secretID, 128) else "",
                              ""))
  {
    var w0 := PrefilledScan(p);
    w := ConfirmedAfterScan(p, Enters(Inputs(p)), w0, fp);
  }

  /** So with credentials within the limits of the inputs nothing is lost or exchanged. */
  lemma AppRoleSent(url: string, roleID: string, secretID: string, fp: string)
    requires 0 < |url| <= 256 && |roleID| <= 128 && |secretID| <= 128 && (roleID != "" || secretID != "")
    ensures var msgs := [Key("enter"), Key("enter"), Key("enter"), FingerprintDone(fp, None), Key("y")];
            var r := Run(Prefill(url, "", roleID, secretID), msgs);
            r.Some? && Sent(r.value, RunEnroll(url, "", roleID, secretID, ""))
  {
    var w := PrefilledSent(Prefill(url, "", roleID, secretID), fp);
    assert (Enters(2) + [FingerprintDone(fp, None)]) + [Key("y")]
        == [Key("enter"), Key("enter"), Key("enter"), FingerprintDone(fp, None), Key("y")];
  }

  lemma InviteSent(url: string, token: string, fp: string)
    requires 0 < |url| <= 256 && 0 < |token| <= 256
    ensures var msgs := [Key("enter"), Key("enter"), FingerprintDone(fp, None), Key("y")];
            var r := Run(Prefill(url, token, "", ""), msgs);
            r.Some? && Sent(r.value, RunEnroll(url, token, "", "", ""))
  {
    var w := PrefilledSent(Prefill(url, token, "", ""), fp);
    assert (Enters(1) + [FingerprintDone(fp, None)]) + [Key("y")]
        == [Key("enter"), Key("enter"), FingerprintDone(fp, None), Key("y")];
  }

  // -------------------------------------------------------------- methods

  predicate MovesTo(m: Model, msg: Msg, cursor: int) {
    m.step.MethodStep? && msg.KeyMsg? &&
    ((GoesUp(msg.key) && cursor == m.methodCursor - 1) || (GoesDown(msg.key) && cursor == m.methodCursor + 1))
  }

  /** The cursor stays or moves by one row, within the three methods, and moves whenever
      there is a row to move to. */
  lemma MethodMoves(m: Model, msg: Msg, m': Model)
    requires Turned(m, msg, m') && (m.step.MethodStep? || Chosen(m))
    ensures m'.methodCursor == m.methodCursor || MovesTo(m, msg, m'.methodCursor)
    ensures forall c :: MovesTo(m, msg, c) ==> m'.methodCursor == if 0 <= c <= 2 then c else m.methodCursor
  {
    if msg.KeyMsg? && m.step.CredsStep? {
      CredsKeyMoves(m, msg.key, msg.edited);
    }
  }

  // ------------------------------------------------------------- the end

  /** This reply finishes the wizard with its error, or with its result. */
  predicate Finishes(msg: Msg, m: Model) {
    match msg
    case FingerprintDone(_, err) => err.Some? && m.err == err && m.result == None
    case EnrollDone(result, _, err) =>
      if err.Some? then m.err == err && m.result == None else m.err == None && m.result == Some(result)
    case _ => false
  }

  lemma TurnFinishes(m: Model, msg: Msg, m': Model)
    requires Turned(m, msg, m') && m'.step.Finished?
    ensures Finishes(msg, m') || (m.step.Finished? && m'.err == m.err && m'.result == m.result)
  {
    if msg.KeyMsg? {
      HandleKeyMoves(m, msg.key, msg.edited);
    }
  }

  /** In every run a finished wizard shows the error or the result of a reply it got. */
  lemma {:induction false} FinishedByReply(models: seq<Model>, msgs: seq<Msg>, n: nat)
    requires AllTurned(models, msgs) && n <= |msgs| && !models[0].step.Finished? && models[n].step.Finished?
    ensures exists j: nat :: j < n && Finishes(msgs[j], models[n])
  {
    var k := n - 1;
    TurnFinishes(models[k], msgs[k], models[n]);
    if !Finishes(msgs[k], models[n]) {
      FinishedByReply(models, msgs, k);
      var j: nat :| j < k && Finishes(msgs[j], models[k]);
      assert Finishes(msgs[j], models[n]);
    }
  }

  lemma EndsAsReplied(p: Prefill, msgs: seq<Msg>)
    requires Run(p, msgs).Some? && Run(p, msgs).value.m.step.Finished?
    ensures exists j: nat :: j < |msgs| && Finishes(msgs[j], Run(p, msgs).value.m)
  {
    RunTurned(p, msgs);
    assert msgs[..|msgs|] == msgs;
    FinishedByReply(Models(p, msgs), msgs, |msgs|);
  }
}
