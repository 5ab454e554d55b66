/** What the enrollment wizard of cmd/kontango/enroll_tui.go sends, over its runs: where the
    credentials and the profile of an issued enrollment come from. */
module WizardEnrollment {
  import opened Common
  import opened Wizard

  /** The wizard before the n-th message. */
  function At(p: Prefill, msgs: seq<Msg>, n: nat): World
    requires n <= |msgs|
  {
    match Run(p, msgs[..n]) case Some(w) => w case None => Begin(p)
  }

  lemma Snoc(p: Prefill, msgs: seq<Msg>, msg: Msg)
    requires Run(p, msgs).Some? && MayArrive(Run(p, msgs).value, msg)
    ensures Run(p, msgs + [msg]) == Some(Turn(Run(p, msgs).value, msg))
  {
    assert (msgs + [msg])[..|msgs|] == msgs;
  }

  lemma IssuedLast(p: Prefill, before: seq<Msg>, msg: Msg)
    requires Run(p, before + [msg]).Some?
    ensures Run(p, before).Some? && MayArrive(Run(p, before).value, msg) && Good(Run(p, before).value)
    ensures var o := Update(Run(p, before).value.m, msg);
            o.Next? && Run(p, before + [msg]).value.issued == Run(p, before).value.issued + [o.cmd]
  {
    assert (before + [msg])[..|before|] == before;
    EveryRunGood(p, before);
    TurnConfirms(Run(p, before).value, msg);
  }

  /** Every message has its command, and was allowed to arrive. */
  lemma {:induction false} IssuedAt(p: Prefill, msgs: seq<Msg>, n: nat)
    requires Run(p, msgs).Some? && n < |msgs|
    ensures Run(p, msgs[..n]).Some? && MayArrive(At(p, msgs, n), msgs[n]) && Good(At(p, msgs, n))
    ensures Update(At(p, msgs, n).m, msgs[n]).Next?
    ensures |Run(p, msgs).value.issued| == |msgs|
    ensures Run(p, msgs).value.issued[n] == Update(At(p, msgs, n).m, msgs[n]).cmd
  {
    var before, msg := msgs[..|msgs| - 1], msgs[|msgs| - 1];
    assert before + [msg] == msgs;
    IssuedLast(p, before, msg);
    IssuedLength(p, before);
    if n < |before| {
      IssuedAt(p, before, n);
      assert before[..n] == msgs[..n];
    } else {
      assert msgs[..n] == before;
    }
  }

  lemma IssuedLength(p: Prefill, msgs: seq<Msg>)
    requires Run(p, msgs).Some?
    ensures |Run(p, msgs).value.issued| == |msgs|
  {
    EnrollmentIsConfirmed(p, msgs);
  }

  // ------------------------------------------------- what becomes of the form

  /** The parts of the form that credentials are taken from. */
  predicate SameForm(a: Model, b: Model) {
    a.url == b.url && a.methodCursor == b.methodCursor && a.credInputs == b.credInputs
  }

  /** The n-th message issued the scan. */
  predicate ScansAt(p: Prefill, msgs: seq<Msg>, n: nat) {
    n < |msgs| &&
    var o := Update(At(p, msgs, n).m, msgs[n]);
    o.Next? && o.cmd.CollectFingerprint?
  }

  /** The n-th message delivered this list of profiles. */
  predicate ListsAt(msgs: seq<Msg>, n: nat, list: seq<string>) {
    n < |msgs| && msgs[n] == ProfileList(list, None) && list != []
  }

  predicate Settled(step: Step) {
    step.Scanning? || step.Confirm?
  }

  /** A form that is settled after this outcome is the one before it. */
  predicate KeepsForm(m: Model, o: Outcome) {
    o.Next? ==>
      (Settled(o.m.step) ==> SameForm(m, o.m) && (Settled(m.step) || o.cmd.CollectFingerprint?)) &&
      o.m.showProfiles == m.showProfiles && o.m.profiles == m.profiles
  }

  lemma UrlKeepsForm(m: Model, key: string, edited: string)
    requires m.step.UrlStep?
    ensures KeepsForm(m, UrlKey(m, key, edited))
  {
  }

  lemma MethodKeepsForm(m: Model, key: string)
    requires m.step.MethodStep?
    ensures KeepsForm(m, MethodKey(m, key))
  {
  }

  lemma CredsKeepForm(m: Model, key: string, edited: string)
    requires m.step.CredsStep?
    ensures KeepsForm(m, CredsKey(m, key, edited))
  {
  }

  lemma ConfirmKeepsForm(m: Model, key: string)
    requires m.step.Confirm?
    ensures KeepsForm(m, ConfirmKey(m, key))
  {
  }

  lemma KeyKeepsForm(m: Model, key: string, edited: string)
    ensures KeepsForm(m, HandleKey(m, key, edited))
  {
    match m.step {
      case UrlStep => UrlKeepsForm(m, key, edited);
      case MethodStep => MethodKeepsForm(m, key);
      case CredsStep => CredsKeepForm(m, key, edited);
      case Confirm => ConfirmKeepsForm(m, key);
      case _ =>
    }
  }

  /** From the scan to the confirmation the form stays as it is. */
  lemma TurnKeepsForm(w: World, msg: Msg)
    requires Good(w) && MayArrive(w, msg) && Update(w.m, msg).Next?
    ensures var o := Update(w.m, msg);
            (Settled(o.m.step) ==> SameForm(w.m, o.m) && (Settled(w.m.step) || o.cmd.CollectFingerprint?)) &&
            (o.m.showProfiles ==>
              (w.m.showProfiles && o.m.profiles == w.m.profiles) || ListsAt([msg], 0, o.m.profiles))
  {
    if msg.KeyMsg? {
      KeyKeepsForm(w.m, msg.key, msg.edited);
    }
  }

  ghost predicate FormScanned(p: Prefill, msgs: seq<Msg>, m: Model) {
    exists k: nat :: ScansAt(p, msgs, k) && SameForm(At(p, msgs, k).m, m)
  }

  ghost predicate ListDelivered(msgs: seq<Msg>, list: seq<string>) {
    exists j: nat :: ListsAt(msgs, j, list)
  }

  lemma ScannedStays(p: Prefill, msgs: seq<Msg>, msg: Msg, m: Model, m': Model)
    requires FormScanned(p, msgs, m) && SameForm(m, m')
    ensures FormScanned(p, msgs + [msg], m')
  {
    var k: nat :| ScansAt(p, msgs, k) && SameForm(At(p, msgs, k).m, m);
    assert (msgs + [msg])[..k] == msgs[..k];
    assert ScansAt(p, msgs + [msg], k);
  }

  lemma ListStays(msgs: seq<Msg>, msg: Msg, list: seq<string>)
    requires ListDelivered(msgs, list)
    ensures ListDelivered(msgs + [msg], list)
  {
    var j: nat :| ListsAt(msgs, j, list);
    assert ListsAt(msgs + [msg], j, list);
  }

  lemma FormNext(p: Prefill, before: seq<Msg>, msg: Msg)
    requires Run(p, before + [msg]).Some? && Run(p, before).Some?
    requires var m := Run(p, before).value.m;
             (Settled(m.step) ==> FormScanned(p, before, m)) && (m.showProfiles ==> ListDelivered(before, m.profiles))
    ensures var m := Run(p, before + [msg]).value.m;
            (Settled(m.step) ==> FormScanned(p, before + [msg], m)) &&
            (m.showProfiles ==> ListDelivered(before + [msg], m.profiles))
  {
    var w, msgs := Run(p, before).value, before + [msg];
    IssuedLast(p, before, msg);
    TurnKeepsForm(w, msg);
    assert msgs[..|before|] == before;
    var m' := Update(w.m, msg).m;
    if Settled(m'.step) {
      if Settled(w.m.step) {
        ScannedStays(p, before, msg, w.m, m');
      } else {
        assert ScansAt(p, msgs, |before|) && SameForm(At(p, msgs, |before|).m, m');
      }
    }
    if m'.showProfiles {
      if w.m.showProfiles && m'.profiles == w.m.profiles {
        ListStays(before, msg, m'.profiles);
      } else {
        assert ListsAt(msgs, |before|, m'.profiles);
      }
    }
  }

  /** In every run: at confirmation the form is the one the scan was issued with, and the
      profiles shown are those a reply delivered. */
  lemma {:induction false} FormKept(p: Prefill, msgs: seq<Msg>)
    requires Run(p, msgs).Some?
    ensures var m := Run(p, msgs).value.m;
            (Settled(m.step) ==> FormScanned(p, msgs, m)) && (m.showProfiles ==> ListDelivered(msgs, m.profiles))
  {
    if msgs != [] {
      var before, msg := msgs[..|msgs| - 1], msgs[|msgs| - 1];
      assert before + [msg] == msgs;
      FormKept(p, before);
      FormNext(p, before, msg);
    }
  }

  // ------------------------------------------------------ what is sent

  /** The command carries the credentials this form has for its method, and no others. */
  predicate CarriesCredentials(m: Model, cmd: Cmd)
    requires cmd.RunEnroll?
  {
    cmd.url == m.url.value &&
    (if m.methodCursor == INVITE then |m.credInputs| == 1 && cmd.session == m.credInputs[0].value
     else cmd.session == "") &&
    (if m.methodCursor == APPROLE then
       |m.credInputs| == 2 && cmd.roleID == m.credInputs[0].value && cmd.secretID == m.credInputs[1].value
     else cmd.roleID == "" && cmd.secretID == "")
  }

  /** The text of the highlighted row, where row 0 stands for no profile. */
  function Highlighted(m: Model): string {
    if m.showProfiles && 0 < m.profileCursor <= |m.profiles| then m.profiles[m.profileCursor - 1] else ""
  }

  predicate NoRepeats(list: seq<string>) {
    forall i, j :: 0 <= i < j < |list| ==> list[i] != list[j]
  }

  /** No profile, or one further down a list delivered before than its first row. */
  ghost predicate ProfileSent(msgs: seq<Msg>, profile: string) {
    profile == "" ||
    exists j: nat, c: nat ::
      j < |msgs| && msgs[j].ProfileList? && ListsAt(msgs, j, msgs[j].profiles) &&
      1 <= c < |msgs[j].profiles| && profile == msgs[j].profiles[c]
  }

  /** What one confirm key issues. */
  lemma ConfirmSends(m: Model)
    requires WellFormed(m) && m.step.Confirm?
    ensures var o := StartEnroll(m);
            o.Next? && o.cmd.RunEnroll? && CarriesCredentials(m, o.cmd) &&
            (if m.showProfiles && m.profileCursor > 0 then
               m.profileCursor < |m.profiles| && o.cmd.profile == m.profiles[m.profileCursor]
             else o.cmd.profile == "") &&
            (NoRepeats(m.profiles) ==> (o.cmd.profile == Highlighted(m) <==> m.profileCursor == 0))
  {
  }

  lemma SameCredentials(a: Model, b: Model, cmd: Cmd)
    requires cmd.RunEnroll? && SameForm(a, b) && CarriesCredentials(b, cmd)
    ensures CarriesCredentials(a, cmd)
  {
  }

  lemma ScanIssued(p: Prefill, msgs: seq<Msg>, n: nat, k: nat)
    requires Run(p, msgs).Some? && n < |msgs| && ScansAt(p, msgs[..n], k)
    ensures At(p, msgs[..n], k) == At(p, msgs, k)
    ensures k < n && k < |Run(p, msgs).value.issued| && Run(p, msgs).value.issued[k].CollectFingerprint?
  {
    assert msgs[..n][..k] == msgs[..k];
    IssuedAt(p, msgs, k);
  }

  lemma FormSent(p: Prefill, msgs: seq<Msg>, n: nat, cmd: Cmd)
    requires Run(p, msgs).Some? && n < |msgs| && cmd.RunEnroll?
    requires At(p, msgs, n).m.step.Confirm? && CarriesCredentials(At(p, msgs, n).m, cmd)
    ensures var issued := Run(p, msgs).value.issued;
            |issued| == |msgs| &&
            exists k: nat :: k < n && issued[k].CollectFingerprint? && CarriesCredentials(At(p, msgs, k).m, cmd)
  {
    var before, m := msgs[..n], At(p, msgs, n).m;
    IssuedAt(p, msgs, n);
    FormKept(p, before);
    var k: nat :| ScansAt(p, before, k) && SameForm(At(p, before, k).m, m);
    ScanIssued(p, msgs, n, k);
    SameCredentials(At(p, msgs, k).m, m, cmd);
  }

  lemma RowOfList(p: Prefill, msgs: seq<Msg>, profile: string)
    requires Run(p, msgs).Some?
    requires var m := Run(p, msgs).value.m;
             if m.showProfiles && m.profileCursor > 0 then
               m.profileCursor < |m.profiles| && profile == m.profiles[m.profileCursor]
             else profile == ""
    ensures ProfileSent(msgs, profile)
  {
    var m := Run(p, msgs).value.m;
    FormKept(p, msgs);
    if m.showProfiles && m.profileCursor > 0 {
      var j: nat :| ListsAt(msgs, j, m.profiles);
      assert msgs[j].profiles == m.profiles;
    }
  }

  /** Whatever the run: an enrollment carries the credentials that stood in the form when
      the scan was issued, of the method chosen then and of no other. Its profile is none
      or one of a list that was delivered, and never the first of that list. If the list
      does not repeat itself it is the highlighted one only when none is highlighted. */
  lemma EnrollmentSent(p: Prefill, msgs: seq<Msg>, n: nat)
    requires Run(p, msgs).Some? && n < |Run(p, msgs).value.issued| <= |msgs|
    requires Run(p, msgs).value.issued[n].RunEnroll?
    ensures var issued, m := Run(p, msgs).value.issued, At(p, msgs, n).m;
            var cmd := issued[n];
            (exists k: nat :: k < n && issued[k].CollectFingerprint? && CarriesCredentials(At(p, msgs, k).m, cmd)) &&
            ProfileSent(msgs[..n], cmd.profile) &&
            (NoRepeats(m.profiles) ==> (cmd.profile == Highlighted(m) <==> m.profileCursor == 0))
  {
    var m := At(p, msgs, n).m;
    IssuedAt(p, msgs, n);
    TurnConfirms(At(p, msgs, n), msgs[n]);
    ConfirmSends(m);
    FormSent(p, msgs, n, StartEnroll(m).cmd);
    RowOfList(p, msgs[..n], StartEnroll(m).cmd.profile);
  }

  // --------------------------------------------------- which rows can be sent

  const START: Prefill := Prefill("h", "", "", "")

  function Key(key: string): Msg {
    KeyMsg(key, "")
  }

  /** Confirms the method, the scan replies, the profiles arrive. */
  function Opening(list: seq<string>): seq<Msg> {
    [Key("enter")] + [FingerprintDone("f", None)] + [ProfileList(list, None)]
  }

  /** The cursor moves down c rows after that. */
  function Path(list: seq<string>, c: nat): seq<Msg> {
    if c == 0 then Opening(list) else Path(list, c - 1) + [Key("down")]
  }

  /** The confirmation with these profiles and the cursor on a row. */
  predicate Choosing(w: World, list: seq<string>, row: nat) {
    w.m.step.Confirm? && w.m.showProfiles && w.m.profiles == list && w.m.profileCursor == row &&
    w.m.methodCursor == 0 && !w.panicked
  }

  lemma ScanThenList(w: World, list: seq<string>)
    requires w == Turn(Begin(START), Key("enter")) && list != []
    ensures MayArrive(w, FingerprintDone("f", None))
    ensures var w1 := Turn(w, FingerprintDone("f", None));
            MayArrive(w1, ProfileList(list, None)) && Choosing(Turn(w1, ProfileList(list, None)), list, 0)
  {
  }

  lemma OpeningRuns(list: seq<string>)
    requires list != []
    ensures Run(START, Opening(list)).Some? && Choosing(Run(START, Opening(list)).value, list, 0)
  {
    var none: seq<Msg> := [];
    Snoc(START, none, Key("enter"));
    assert none + [Key("enter")] == [Key("enter")];
    ScanThenList(Turn(Begin(START), Key("enter")), list);
    Snoc(START, [Key("enter")], FingerprintDone("f", None));
    Snoc(START, [Key("enter")] + [FingerprintDone("f", None)], ProfileList(list, None));
  }

  lemma DownMoves(w: World, list: seq<string>, row: nat)
    requires Choosing(w, list, row) && row + 1 < |list|
    ensures Choosing(Turn(w, Key("down")), list, row + 1)
  {
  }

  lemma {:induction false} PathRuns(list: seq<string>, c: nat)
    requires c < |list|
    ensures Run(START, Path(list, c)).Some? && Choosing(Run(START, Path(list, c)).value, list, c)
  {
    if c == 0 {
      OpeningRuns(list);
    } else {
      PathRuns(list, c - 1);
      Snoc(START, Path(list, c - 1), Key("down"));
      DownMoves(Run(START, Path(list, c - 1)).value, list, c - 1);
    }
  }

  /** The confirm key on a row. */
  lemma RowSent(w: World, list: seq<string>, row: nat)
    requires Choosing(w, list, row) && row < |list|
    ensures var o := Update(w.m, Key("enter"));
            o.Next? && o.cmd.RunEnroll? && o.cmd.profile == (if row == 0 then "" else list[row]) &&
            Highlighted(w.m) == if row == 0 then "" else list[row - 1]
  {
  }

  /** The run in which the cursor is moved down c rows before the confirm key. */
  function Choice(list: seq<string>, c: nat): seq<Msg> {
    Path(list, c) + [Key("enter")]
  }

  /** It highlights one profile and enrolls with the next. */
  lemma NextRowSent(list: seq<string>, c: nat)
    requires c < |list|
    ensures var msgs, n := Choice(list, c), |Path(list, c)|;
            Run(START, msgs).Some? && n < |Run(START, msgs).value.issued| &&
            var cmd := Run(START, msgs).value.issued[n];
            cmd.RunEnroll? && cmd.profile == (if c == 0 then "" else list[c]) &&
            Highlighted(At(START, msgs, n).m) == if c == 0 then "" else list[c - 1]
  {
    var before := Path(list, c);
    PathRuns(list, c);
    Snoc(START, before, Key("enter"));
    IssuedAt(START, Choice(list, c), |before|);
    assert Choice(list, c)[..|before|] == before;
    RowSent(Run(START, before).value, list, c);
  }

  /** An enrollment with this profile is issued in some run whose replies all deliver this
      list. */
  ghost predicate Sends(p: Prefill, msgs: seq<Msg>, n: nat, list: seq<string>, profile: string) {
    Run(p, msgs).Some? && n < |Run(p, msgs).value.issued| <= |msgs| &&
    Run(p, msgs).value.issued[n].RunEnroll? && Run(p, msgs).value.issued[n].profile == profile &&
    Delivers(msgs, list)
  }

  ghost predicate Delivers(msgs: seq<Msg>, list: seq<string>) {
    forall j :: 0 <= j < |msgs| && msgs[j].ProfileList? ==> msgs[j].profiles == list
  }

  lemma {:induction false} PathDelivers(list: seq<string>, c: nat)
    ensures Delivers(Path(list, c), list)
  {
    if c > 0 {
      PathDelivers(list, c - 1);
    }
  }

  lemma CanBeSent(list: seq<string>, c: nat)
    requires c < |list|
    ensures Sends(START, Choice(list, c), |Path(list, c)|, list, if c == 0 then "" else list[c])
  {
    NextRowSent(list, c);
    IssuedLength(START, Choice(list, c));
    PathDelivers(list, c);
  }

  lemma OnlyLaterRows(p: Prefill, msgs: seq<Msg>, n: nat, list: seq<string>, profile: string)
    requires Sends(p, msgs, n, list, profile)
    ensures profile == "" || exists c: nat :: 1 <= c < |list| && profile == list[c]
  {
    EnrollmentSent(p, msgs, n);
    if profile != "" {
      var j: nat, c: nat :| j < n && msgs[..n][j].ProfileList? && 1 <= c < |msgs[..n][j].profiles| &&
                            profile == msgs[..n][j].profiles[c];
      assert msgs[..n][j] == msgs[j];
    }
  }

  /** Given a list of profiles, the wizard can enroll with no profile or with any profile
      after the first row, and with nothing else. */
  lemma SentExactly(list: seq<string>, profile: string)
    requires list != []
    ensures (exists p, msgs, n: nat :: Sends(p, msgs, n, list, profile))
       <==> profile == "" || exists c: nat :: 1 <= c < |list| && profile == list[c]
  {
    if p, msgs, n: nat :| Sends(p, msgs, n, list, profile) {
      OnlyLaterRows(p, msgs, n, list, profile);
    }
    if profile == "" {
      CanBeSent(list, 0);
    }
    if c: nat :| 1 <= c < |list| && profile == list[c] {
      CanBeSent(list, c);
    }
  }
}
