/** The Slack notifier's memory of open alerts (internal/adapter/slack/slack.go).

  The notifier keeps one map from string keys to the ALERT message it posted, and a resolution looks its
  alert up there. The reading is one private slot per rule: what the rule's present episode posted, if
  anything. The map behaves as those slots, whatever deliveries fail, exactly when no two rules share a key. */
module SlackBook {
  import opened Domain
  import AlarmRuns
  import Alerting
  import LiveView
  import Monitors
  import Paths

  /** Where a channel delivers: through the Web API when there is a bot token, else through the webhook. */
  datatype Destination = Destination(webhook: string, token: string, channelID: string) {
    predicate Bot() { token != "" }
  }

  datatype Posted = Posted(fired: Notification, ts: string)

  type Book = map<string, Posted>

  /** What delivering one notification does towards Slack. `reply` is the message timestamp of a successful post
    (empty for webhooks), or nothing when the delivery fails. */
  datatype Action =
    | NoDestination
    | PostAlert(alert: Notification, reply: Option<string>)
    | PostPlain(resolved: Notification)
    | PostQuoting(alert: Notification, resolved: Notification)
    | EditMessage(ts: string, alert: Notification, resolved: Notification)

  function RuleKey(num: LiveView.Printer, r: Rule): string {
    Paths.PathString(r.stream) + ("|" + (OpName(r.op) + ("|" + (num(r.threshold) + ("|" + r.channel)))))
  }

  /** The reaction to a notification when `prev` is the remembered alert. */
  function Reaction(dests: map<string, Destination>, prev: Option<Posted>,
                    n: Notification, reply: Option<string>): Action {
    if n.rule.channel !in dests then NoDestination
    else if n.event != Resolved then PostAlert(n, reply)
    else
      match prev
      case None => PostPlain(n)
      case Some(p) =>
        if p.ts != "" && dests[n.rule.channel].Bot() then EditMessage(p.ts, p.fired, n) else PostQuoting(p.fired, n)
  }

  function Lookup(open: Book, key: string): Option<Posted> { if key in open then Some(open[key]) else None }

  function BookAfter(num: LiveView.Printer, dests: map<string, Destination>,
                     open: Book, n: Notification, reply: Option<string>): Book {
    var key := RuleKey(num, n.rule);
    if n.rule.channel !in dests then open
    else if n.event == Resolved then open - {key}
    else if reply.None? then open
    else open[key := Posted(n, reply.value)]
  }

  class Notifier {
    const dests: map<string, Destination>
    const num: LiveView.Printer
    var open: Book

    constructor (dests: map<string, Destination>, num: LiveView.Printer)
      ensures this.dests == dests && this.num == num && open == map[]
    {
      this.dests, this.num, open := dests, num, map[];
    }

    method Notify(n: Notification, reply: Option<string>) returns (act: Action)
      modifies this
      ensures open == BookAfter(num, dests, old(open), n, reply)
      ensures act == Reaction(dests, Lookup(old(open), RuleKey(num, n.rule)), n, reply)
    {
      if n.rule.channel !in dests {
        return NoDestination;
      }
      var dest := dests[n.rule.channel];
      var key := RuleKey(num, n.rule);
      if n.event != Resolved {
        act := PostAlert(n, reply);
        if reply.None? {
          return;
        }
        open := open[key := Posted(n, reply.value)];
        return;
      }
      var had := key in open;
      var prev := if had then open[key] else Posted(n, "");
      open := open - {key};
      if !had {
        return PostPlain(n);
      }
      if prev.ts != "" && dest.Bot() {
        return EditMessage(prev.ts, prev.fired, n);
      }
      return PostQuoting(prev.fired, n);
    }
  }

  /** Two notifications of one rule, the second of them its resolution, delivered with no other under its key in
    between. The first is posted as an alert. The second edits that message when it was posted through a bot and has a
    timestamp; otherwise it quotes it in a new message. An alert that could not be posted is not spoken of. */
  lemma ResolutionAnswersAlert(num: LiveView.Printer, dests: map<string, Destination>, open: Book,
                               alert: Notification, reply: Option<string>,
                               resolved: Notification, reply': Option<string>)
    requires alert.event == Fired && resolved.event == Resolved && resolved.rule == alert.rule
    requires alert.rule.channel in dests
    ensures var key := RuleKey(num, alert.rule);
            var after := BookAfter(num, dests, open, alert, reply);
            var throughBot := dests[alert.rule.channel].token != "";
            && Reaction(dests, Lookup(open, key), alert, reply) == PostAlert(alert, reply)
            && (reply.Some? ==>
                  Reaction(dests, Lookup(after, key), resolved, reply') ==
                  if throughBot && reply.value != "" then EditMessage(reply.value, alert, resolved)
                  else PostQuoting(alert, resolved))
            && (reply.None? && key !in open ==>
                  Reaction(dests, Lookup(after, key), resolved, reply') == PostPlain(resolved))
            && key !in BookAfter(num, dests, after, resolved, reply')
  {
    hide RuleKey;
  }

  /** What cannot be delivered leaves the map as it is: no destination, or an alert that could not be posted.
    The alert of a resolution is forgotten whatever the reply. */
  lemma FailureChangesNothing(num: LiveView.Printer, dests: map<string, Destination>, open: Book,
                              n: Notification, reply: Option<string>)
    ensures n.rule.channel !in dests ==>
              BookAfter(num, dests, open, n, reply) == open
              && Reaction(dests, Lookup(open, RuleKey(num, n.rule)), n, reply) == NoDestination
    ensures n.event != Resolved && reply.None? ==> BookAfter(num, dests, open, n, reply) == open
    ensures n.event == Resolved && n.rule.channel in dests ==>
              BookAfter(num, dests, open, n, reply) == open - {RuleKey(num, n.rule)}
  {
    hide RuleKey;
  }

  // ----- one step of the alerter, delivered -----

  /** What Slack answers to the notification of each rule in one step. */
  type Replies = nat -> Option<string>

  function Note(ms: Alerting.States, i: Alerting.Input, k: nat): Option<Notification>
    requires k < |ms|
  {
    var ev := Alerting.StepOne(ms[k], i).1;
    if ev == NoEvent then None else Some(Alerting.NoteOf(ms[k].rule, ev, i))
  }

  /** The book after the notifications of the first `k` rules were delivered. */
  function Delivered(num: LiveView.Printer, dests: map<string, Destination>, open: Book, ms: Alerting.States,
                     i: Alerting.Input, replies: Replies, k: nat): Book
    requires k <= |ms|
  {
    if k == 0 then open
    else
      var before := Delivered(num, dests, open, ms, i, replies, k - 1);
      match Note(ms, i, k - 1)
      case None => before
      case Some(n) => BookAfter(num, dests, before, n, replies(k - 1))
  }

  lemma NotifyOneMore(num: LiveView.Printer, dests: map<string, Destination>, open: Book, ns: seq<Notification>,
                      rs: seq<Option<string>>, n: Notification, r: Option<string>)
    requires |rs| == |ns|
    ensures NotifyAll(num, dests, open, ns + [n], rs + [r]) ==
            BookAfter(num, dests, NotifyAll(num, dests, open, ns, rs), n, r)
  {
    assert (ns + [n])[..|ns|] == ns && (rs + [r])[..|rs|] == rs;
  }

  lemma NoNotes(num: LiveView.Printer, dests: map<string, Destination>, open: Book,
                none: Alerting.States, i: Alerting.Input)
    requires none == []
    ensures Alerting.Notes(none, i) == [] && NotifyAll(num, dests, open, [], []) == open
  {
  }

  lemma NotesOneMore(ms: Alerting.States, i: Alerting.Input, k: nat)
    requires k < |ms|
    ensures Alerting.Notes(ms[..k + 1], i)
         == Alerting.Notes(ms[..k], i) + if Note(ms, i, k).None? then [] else [Note(ms, i, k).value]
  {
    hide Alerting.StepOne, Alerting.NoteOf;
    assert ms[..k + 1][..k] == ms[..k];
  }

  /** Notifications in the order the alerter sends them: delivering them one by one is `Delivered`. */
  lemma {:induction false} DeliveredInOrder(num: LiveView.Printer, dests: map<string, Destination>, open: Book,
                                            ms: Alerting.States, i: Alerting.Input, replies: Replies, k: nat)
    returns (rs: seq<Option<string>>)
    requires k <= |ms|
    ensures |rs| == |Alerting.Notes(ms[..k], i)|
    ensures Delivered(num, dests, open, ms, i, replies, k) ==
            NotifyAll(num, dests, open, Alerting.Notes(ms[..k], i), rs)
  {
    hide BookAfter, Note, Alerting.Notes, NotifyAll;
    rs := [];
    if k == 0 {
      NoNotes(num, dests, open, ms[..0], i);
    } else {
      var before := DeliveredInOrder(num, dests, open, ms, i, replies, k - 1);
      NotesOneMore(ms, i, k - 1);
      match Note(ms, i, k - 1)
      case None =>
        assert Alerting.Notes(ms[..k], i) == Alerting.Notes(ms[..k - 1], i);
        rs := before;
      case Some(n) =>
        rs := before + [replies(k - 1)];
        NotifyOneMore(num, dests, open, Alerting.Notes(ms[..k - 1], i), before, n, replies(k - 1));
    }
  }

  function NotifyAll(num: LiveView.Printer, dests: map<string, Destination>, open: Book,
                     ns: seq<Notification>, rs: seq<Option<string>>): Book
    requires |rs| == |ns|
  {
    if ns == [] then open
    else BookAfter(num, dests, NotifyAll(num, dests, open, ns[..|ns| - 1], rs[..|rs| - 1]), ns[|ns| - 1], rs[|rs| - 1])
  }

  // ----- one slot per rule -----

  type Slots = seq<Option<Posted>>

  /** The slot of one rule: filled by a Fired that was delivered, emptied by the Resolved that ends the episode. */
  function SlotAfter(dests: map<string, Destination>, slot: Option<Posted>,
                     note: Option<Notification>, reply: Option<string>): Option<Posted> {
    match note
    case None => slot
    case Some(n) =>
      if n.event == Resolved || n.rule.channel !in dests || reply.None? then None else Some(Posted(n, reply.value))
  }

  /** All slots after the first `k` rules of a step. */
  function SlotsAfter(dests: map<string, Destination>, slots: Slots, ms: Alerting.States, i: Alerting.Input,
                      replies: Replies, k: nat): (r: Slots)
    requires k <= |ms| == |slots|
    ensures |r| == |slots|
    ensures forall j :: 0 <= j < |slots| ==>
              r[j] == if j < k then SlotAfter(dests, slots[j], Note(ms, i, j), replies(j)) else slots[j]
  {
    seq(|slots|, j requires 0 <= j < |slots| =>
      if j < k then SlotAfter(dests, slots[j], Note(ms, i, j), replies(j)) else slots[j])
  }

  /** The map holds exactly what the slots hold, each under its rule's key. */
  ghost predicate Represents(num: LiveView.Printer, ms: Alerting.States, slots: Slots, open: Book) {
    && |slots| == |ms|
    && (forall k :: 0 <= k < |ms| && slots[k].Some? ==>
          RuleKey(num, ms[k].rule) in open && open[RuleKey(num, ms[k].rule)] == slots[k].value)
    && (forall key :: key in open ==> exists k :: 0 <= k < |ms| && slots[k].Some? && RuleKey(num, ms[k].rule) == key)
  }

  /** A filled slot belongs to a firing rule and holds a Fired notification of it. */
  ghost predicate SlotsSound(dests: map<string, Destination>, ms: Alerting.States, slots: Slots) {
    && |slots| == |ms|
    && forall k :: 0 <= k < |ms| && slots[k].Some? ==>
         && ms[k].fired && ms[k].rule.channel in dests
         && slots[k].value.fired.rule == ms[k].rule && slots[k].value.fired.event == Fired
  }

  ghost predicate DistinctKeys(num: LiveView.Printer, rules: seq<Rule>) {
    forall j, k :: 0 <= j < k < |rules| ==> RuleKey(num, rules[j]) != RuleKey(num, rules[k])
  }

  lemma SlotsStaySound(dests: map<string, Destination>, slots: Slots, ms: Alerting.States,
                       i: Alerting.Input, replies: Replies)
    requires SlotsSound(dests, ms, slots)
    ensures SlotsSound(dests, Alerting.StepAll(ms, i), SlotsAfter(dests, slots, ms, i, replies, |ms|))
  {
    hide Alerting.StepOne;
    var slots' := SlotsAfter(dests, slots, ms, i, replies, |ms|);
    forall k | 0 <= k < |ms| && slots'[k].Some?
      ensures var m := Alerting.StepOne(ms[k], i).0;
              && m.fired && m.rule.channel in dests
              && slots'[k].value.fired.rule == m.rule && slots'[k].value.fired.event == Fired
    {
      Alerting.EventIsTransition(ms[k], i);
    }
  }

  /** Delivering a notification acts on the entry under its rule's key as on that rule's slot, and on no other entry. */
  lemma BookAfterLookup(num: LiveView.Printer, dests: map<string, Destination>,
                        open: Book, n: Notification, reply: Option<string>)
    requires Lookup(open, RuleKey(num, n.rule)).Some? ==> n.event == Resolved && n.rule.channel in dests
    ensures var open' := BookAfter(num, dests, open, n, reply);
            && Lookup(open', RuleKey(num, n.rule)) ==
               SlotAfter(dests, Lookup(open, RuleKey(num, n.rule)), Some(n), reply)
            && forall key :: key != RuleKey(num, n.rule) ==> Lookup(open', key) == Lookup(open, key)
  {
    hide RuleKey;
  }

  lemma KeysApart(num: LiveView.Printer, ms: Alerting.States, j: nat, k: nat)
    requires j < |ms| && k < |ms| && j != k && DistinctKeys(num, Alerting.RulesOf(ms))
    ensures RuleKey(num, ms[j].rule) != RuleKey(num, ms[k].rule)
  {
    hide RuleKey;
    var rules := Alerting.RulesOf(ms);
    assert rules[j] == ms[j].rule && rules[k] == ms[k].rule;
  }

  lemma EntryHasSlot(num: LiveView.Printer, ms: Alerting.States, slots: Slots, open: Book,
                     k: nat, open': Book, key: string)
    requires k < |ms| && Represents(num, ms, slots, open) && key in open'
    requires key != RuleKey(num, ms[k].rule) ==> Lookup(open', key) == Lookup(open, key)
    ensures var slots' := slots[k := Lookup(open', RuleKey(num, ms[k].rule))];
            exists j :: 0 <= j < |ms| && slots'[j].Some? && RuleKey(num, ms[j].rule) == key
  {
    hide RuleKey;
    var slots' := slots[k := Lookup(open', RuleKey(num, ms[k].rule))];
    if key == RuleKey(num, ms[k].rule) {
      assert slots'[k].Some?;
    } else {
      assert Lookup(open, key).Some?;
      var j :| 0 <= j < |ms| && slots[j].Some? && RuleKey(num, ms[j].rule) == key;
      assert slots'[j].Some?;
    }
  }

  /** Changing one rule's slot and the entry under its key alike. */
  lemma RepresentsUpdate(num: LiveView.Printer, ms: Alerting.States, slots: Slots, open: Book, k: nat,
                         slot: Option<Posted>, open': Book)
    requires k < |ms| && DistinctKeys(num, Alerting.RulesOf(ms)) && Represents(num, ms, slots, open)
    requires Lookup(open', RuleKey(num, ms[k].rule)) == slot
    requires forall key :: key != RuleKey(num, ms[k].rule) ==> Lookup(open', key) == Lookup(open, key)
    ensures Represents(num, ms, slots[k := slot], open')
  {
    hide RuleKey, DistinctKeys;
    var slots' := slots[k := slot];
    forall j | 0 <= j < |ms| && slots'[j].Some? ensures Lookup(open', RuleKey(num, ms[j].rule)) == slots'[j] {
      if j != k {
        KeysApart(num, ms, j, k);
        assert Lookup(open, RuleKey(num, ms[j].rule)) == slots[j];
      }
    }
    forall key | key in open'
      ensures exists j :: 0 <= j < |ms| && slots'[j].Some? && RuleKey(num, ms[j].rule) == key
    {
      EntryHasSlot(num, ms, slots, open, k, open', key);
    }
  }

  lemma RepresentsLookup(num: LiveView.Printer, ms: Alerting.States, slots: Slots, open: Book, k: nat)
    requires k < |ms| && DistinctKeys(num, Alerting.RulesOf(ms)) && Represents(num, ms, slots, open)
    ensures Lookup(open, RuleKey(num, ms[k].rule)) == slots[k]
  {
    hide RuleKey, DistinctKeys;
    var key := RuleKey(num, ms[k].rule);
    if key in open {
      var j :| 0 <= j < |ms| && slots[j].Some? && RuleKey(num, ms[j].rule) == key;
      if j != k {
        KeysApart(num, ms, j, k);
      }
    }
  }

  /** One notification delivered: only the slot of its own rule is touched, and only that slot is looked up. */
  lemma DeliverOne(num: LiveView.Printer, dests: map<string, Destination>, ms: Alerting.States, slots: Slots,
                   open: Book, i: Alerting.Input, k: nat, reply: Option<string>)
    requires k < |ms| && DistinctKeys(num, Alerting.RulesOf(ms))
    requires Represents(num, ms, slots, open)
    requires slots[k].Some? ==> ms[k].fired && ms[k].rule.channel in dests
    ensures var note := Note(ms, i, k);
            Represents(num, ms, slots[k := SlotAfter(dests, slots[k], note, reply)],
                       if note.None? then open else BookAfter(num, dests, open, note.value, reply))
    ensures Lookup(open, RuleKey(num, ms[k].rule)) == slots[k]
  {
    assert |slots| == |ms|;
    hide RuleKey, Alerting.StepOne, Lookup, BookAfter, Represents, DistinctKeys;
    Alerting.EventIsTransition(ms[k], i);
    RepresentsLookup(num, ms, slots, open, k);
    var note := Note(ms, i, k);
    if note.None? {
      assert slots[k := slots[k]] == slots;
    } else {
      BookAfterLookup(num, dests, open, note.value, reply);
      RepresentsUpdate(num, ms, slots, open, k, SlotAfter(dests, slots[k], note, reply),
                       BookAfter(num, dests, open, note.value, reply));
    }
  }

  lemma {:induction false} DeliverPrefix(num: LiveView.Printer, dests: map<string, Destination>, ms: Alerting.States,
                                         slots: Slots, open: Book, i: Alerting.Input, replies: Replies, k: nat)
    requires k <= |ms| && DistinctKeys(num, Alerting.RulesOf(ms))
    requires Represents(num, ms, slots, open) && SlotsSound(dests, ms, slots)
    ensures Represents(num, ms, SlotsAfter(dests, slots, ms, i, replies, k),
                       Delivered(num, dests, open, ms, i, replies, k))
    ensures k < |ms| ==>
              Lookup(Delivered(num, dests, open, ms, i, replies, k), RuleKey(num, ms[k].rule)) == slots[k]
  {
    hide RuleKey, Note, Represents, SlotAfter, BookAfter, DistinctKeys;
    if k == 0 {
      assert SlotsAfter(dests, slots, ms, i, replies, 0) == slots;
    } else {
      DeliverPrefix(num, dests, ms, slots, open, i, replies, k - 1);
      var before := SlotsAfter(dests, slots, ms, i, replies, k - 1);
      DeliverOne(num, dests, ms, before, Delivered(num, dests, open, ms, i, replies, k - 1), i, k - 1, replies(k - 1));
      assert SlotsAfter(dests, slots, ms, i, replies, k)
          == before[k - 1 := SlotAfter(dests, before[k - 1], Note(ms, i, k - 1), replies(k - 1))];
    }
    if k < |ms| {
      DeliverOne(num, dests, ms, SlotsAfter(dests, slots, ms, i, replies, k),
                 Delivered(num, dests, open, ms, i, replies, k), i, k, None);
    }
  }

  // ----- whole runs -----

  /** What Slack answers in step `t` to rule `k`. */
  type Oracle = (nat, nat) -> Option<string>

  function At(oracle: Oracle, t: nat): Replies { (k: nat) => oracle(t, k) }

  function BookOf(num: LiveView.Printer, dests: map<string, Destination>, ms: Alerting.States,
                  ins: seq<Alerting.Input>, oracle: Oracle): Book {
    if ins == [] then map[]
    else
      var t := |ins| - 1;
      var open, now := BookOf(num, dests, ms, ins[..t], oracle), Alerting.RunAll(ms, ins[..t]);
      Delivered(num, dests, open, now, ins[t], At(oracle, t), |ms|)
  }

  function SlotsOf(dests: map<string, Destination>, ms: Alerting.States,
                   ins: seq<Alerting.Input>, oracle: Oracle): (slots: Slots)
    ensures |slots| == |ms|
  {
    if ins == [] then seq(|ms|, _ => None)
    else
      var t := |ins| - 1;
      var slots, now := SlotsOf(dests, ms, ins[..t], oracle), Alerting.RunAll(ms, ins[..t]);
      SlotsAfter(dests, slots, now, ins[t], At(oracle, t), |ms|)
  }

  lemma {:induction false} SlotsSoundOverRun(dests: map<string, Destination>, ms: Alerting.States,
                                             ins: seq<Alerting.Input>, oracle: Oracle)
    ensures SlotsSound(dests, Alerting.RunAll(ms, ins), SlotsOf(dests, ms, ins, oracle))
  {
    hide SlotsSound, SlotsAfter, Alerting.StepAll;
    if ins == [] {
      EmptySlotsSound(dests, ms);
    } else {
      var t := |ins| - 1;
      SlotsSoundOverRun(dests, ms, ins[..t], oracle);
      SlotsStaySound(dests, SlotsOf(dests, ms, ins[..t], oracle), Alerting.RunAll(ms, ins[..t]), ins[t], At(oracle, t));
    }
  }

  lemma EmptySlotsSound(dests: map<string, Destination>, ms: Alerting.States)
    ensures SlotsSound(dests, ms, seq(|ms|, _ => None))
  {
  }

  // ----- a slot is the present episode's -----

  /** In step `t` rule `k` fired, and it has been firing ever since: its present episode began there. */
  ghost predicate EpisodeStart(ms: Alerting.States, ins: seq<Alerting.Input>, k: nat, t: nat) {
    && k < |ms| && t < |ins|
    && FiredIn(ms, ins, k, t)
    && forall u :: t < u <= |ins| ==> Alerting.RunAll(ms, ins[..u])[k].fired
  }

  predicate FiredIn(ms: Alerting.States, ins: seq<Alerting.Input>, k: nat, t: nat)
    requires k < |ms| && t < |ins|
  {
    !Alerting.RunAll(ms, ins[..t])[k].fired && Alerting.StepOne(Alerting.RunAll(ms, ins[..t])[k], ins[t]).1 == Fired
  }

  function FiredNote(ms: Alerting.States, ins: seq<Alerting.Input>, k: nat, t: nat): Notification
    requires k < |ms| && t < |ins|
  {
    Alerting.NoteOf(Alerting.RunAll(ms, ins[..t])[k].rule, Fired, ins[t])
  }

  lemma StartBefore(ms: Alerting.States, ins: seq<Alerting.Input>, k: nat, t: nat)
    requires ins != [] && t < |ins| - 1 && EpisodeStart(ms, ins[..|ins| - 1], k, t) && Alerting.RunAll(ms, ins)[k].fired
    ensures EpisodeStart(ms, ins, k, t)
    ensures FiredNote(ms, ins, k, t) == FiredNote(ms, ins[..|ins| - 1], k, t)
  {
    hide Alerting.RunAll, Alerting.StepOne, Alerting.NoteOf;
    var before := ins[..|ins| - 1];
    assert before[..t] == ins[..t] && before[t] == ins[t];
    forall u | t < u <= |ins| ensures Alerting.RunAll(ms, ins[..u])[k].fired {
      if u == |ins| {
        assert ins[..u] == ins;
      } else {
        assert before[..u] == ins[..u];
      }
    }
  }

  lemma StartsNow(ms: Alerting.States, ins: seq<Alerting.Input>, k: nat)
    requires ins != [] && k < |ms| && FiredIn(ms, ins, k, |ins| - 1) && Alerting.RunAll(ms, ins)[k].fired
    ensures EpisodeStart(ms, ins, k, |ins| - 1)
  {
    hide Alerting.RunAll, Alerting.StepOne;
    assert ins[..|ins|] == ins;
  }

  /** While a rule is firing, its slot holds what the Fired notification of the present episode posted, or nothing if
    that delivery failed; while it is quiet the slot is empty. */
  lemma {:induction false} SlotIsPresentEpisode(dests: map<string, Destination>, ms: Alerting.States,
                                                ins: seq<Alerting.Input>, oracle: Oracle, k: nat) returns (t: nat)
    requires k < |ms| && !ms[k].fired
    ensures var slot := SlotsOf(dests, ms, ins, oracle)[k];
            if Alerting.RunAll(ms, ins)[k].fired
            then
              && EpisodeStart(ms, ins, k, t)
              && slot == SlotAfter(dests, None, Some(FiredNote(ms, ins, k, t)), oracle(t, k))
            else slot == None
  {
    hide Alerting.StepOne, Alerting.RunAll, EpisodeStart, FiredNote, FiredIn, SlotsOf, SlotAfter;
    t := 0;
    if ins == [] {
      NothingRun(dests, ms, oracle, ins);
    } else {
      var n := |ins| - 1;
      t := SlotIsPresentEpisode(dests, ms, ins[..n], oracle, k);
      SlotOneMore(dests, ms, ins, oracle, k);
      if Alerting.RunAll(ms, ins)[k].fired {
        if Alerting.RunAll(ms, ins[..n])[k].fired {
          StartIsEarlier(ms, ins[..n], k, t);
          StartBefore(ms, ins, k, t);
        } else {
          t := n;
          StartsNow(ms, ins, k);
        }
      }
    }
  }

  lemma NothingRun(dests: map<string, Destination>, ms: Alerting.States, oracle: Oracle, none: seq<Alerting.Input>)
    requires none == []
    ensures Alerting.RunAll(ms, none) == ms && SlotsOf(dests, ms, none, oracle) == seq(|ms|, _ => None)
  {
  }

  /** One step of a slot, by what the rule was and what it becomes. */
  lemma SlotOneMore(dests: map<string, Destination>, ms: Alerting.States,
                    ins: seq<Alerting.Input>, oracle: Oracle, k: nat)
    requires ins != [] && k < |ms|
    ensures var n := |ins| - 1;
            var was, now := Alerting.RunAll(ms, ins[..n])[k].fired, Alerting.RunAll(ms, ins)[k].fired;
            var slot, slot' := SlotsOf(dests, ms, ins[..n], oracle)[k], SlotsOf(dests, ms, ins, oracle)[k];
            && (was == now ==> slot' == slot)
            && (was && !now ==> slot' == None)
            && (!was && now ==> FiredIn(ms, ins, k, n))
            && (!was && now ==> slot' == SlotAfter(dests, None, Some(FiredNote(ms, ins, k, n)), oracle(n, k)))
  {
    hide Alerting.StepOne;
    Alerting.EventIsTransition(Alerting.RunAll(ms, ins[..|ins| - 1])[k], ins[|ins| - 1]);
  }

  lemma StartIsEarlier(ms: Alerting.States, ins: seq<Alerting.Input>, k: nat, t: nat)
    requires EpisodeStart(ms, ins, k, t)
    ensures k < |ms| && t < |ins|
  {
  }

  lemma RepresentsByRules(num: LiveView.Printer, ms: Alerting.States, ms': Alerting.States, slots: Slots, open: Book)
    requires Alerting.RulesOf(ms) == Alerting.RulesOf(ms') && Represents(num, ms, slots, open)
    ensures Represents(num, ms', slots, open)
  {
    hide RuleKey;
    assert forall k :: 0 <= k < |ms| ==>
        ms[k].rule == Alerting.RulesOf(ms)[k] == Alerting.RulesOf(ms')[k] == ms'[k].rule;
  }

  lemma {:induction false} BookRepresentsSlots(num: LiveView.Printer, dests: map<string, Destination>,
                                               ms: Alerting.States, ins: seq<Alerting.Input>, oracle: Oracle)
    requires DistinctKeys(num, Alerting.RulesOf(ms))
    ensures Represents(num, Alerting.RunAll(ms, ins), SlotsOf(dests, ms, ins, oracle),
                       BookOf(num, dests, ms, ins, oracle))
  {
    hide RuleKey, SlotsAfter, Delivered, Represents, SlotsSound, DistinctKeys, Alerting.StepAll, Alerting.RulesOf;
    if ins == [] {
      EmptyRepresents(num, ms);
    } else {
      var t := |ins| - 1;
      var now := Alerting.RunAll(ms, ins[..t]);
      BookRepresentsSlots(num, dests, ms, ins[..t], oracle);
      SlotsSoundOverRun(dests, ms, ins[..t], oracle);
      Alerting.RulesStay(ms, ins[..t]);
      Alerting.RulesStay(ms, ins);
      var slots, open := SlotsOf(dests, ms, ins[..t], oracle), BookOf(num, dests, ms, ins[..t], oracle);
      DeliverPrefix(num, dests, now, slots, open, ins[t], At(oracle, t), |ms|);
      RepresentsByRules(num, now, Alerting.RunAll(ms, ins), SlotsOf(dests, ms, ins, oracle),
                        BookOf(num, dests, ms, ins, oracle));
    }
  }

  lemma EmptyRepresents(num: LiveView.Printer, ms: Alerting.States)
    ensures Represents(num, ms, seq(|ms|, _ => None), map[])
  {
  }

  /** Over any run with any failures: an entry of the book belongs to a rule that is firing, under that rule's key, and
    is a Fired notification of that rule. */
  lemma OpenOnlyFiring(num: LiveView.Printer, dests: map<string, Destination>, ms: Alerting.States,
                       ins: seq<Alerting.Input>, oracle: Oracle, key: string) returns (k: nat)
    requires DistinctKeys(num, Alerting.RulesOf(ms)) && key in BookOf(num, dests, ms, ins, oracle)
    ensures k < |ms| && Alerting.RunAll(ms, ins)[k].fired && RuleKey(num, ms[k].rule) == key
    ensures SlotsOf(dests, ms, ins, oracle)[k] == Some(BookOf(num, dests, ms, ins, oracle)[key])
    ensures BookOf(num, dests, ms, ins, oracle)[key].fired.rule == ms[k].rule
    ensures BookOf(num, dests, ms, ins, oracle)[key].fired.event == Fired
  {
    hide RuleKey, SlotsOf, BookOf, DistinctKeys;
    BookRepresentsSlots(num, dests, ms, ins, oracle);
    SlotsSoundOverRun(dests, ms, ins, oracle);
    Alerting.RunKeepsRules(ms, ins);
    var now, slots := Alerting.RunAll(ms, ins), SlotsOf(dests, ms, ins, oracle);
    k :| 0 <= k < |now| && slots[k].Some? && RuleKey(num, now[k].rule) == key;
  }

  /** In the next step, what is done for rule `k` depends on its own slot alone: a resolution edits or quotes the very
    message its own episode posted, or none. */
  lemma ReactionIsPrivate(num: LiveView.Printer, dests: map<string, Destination>, ms: Alerting.States,
                          ins: seq<Alerting.Input>, oracle: Oracle, i: Alerting.Input, replies: Replies, k: nat)
    requires DistinctKeys(num, Alerting.RulesOf(ms)) && k < |ms| && Note(Alerting.RunAll(ms, ins), i, k).Some?
    ensures var now, n := Alerting.RunAll(ms, ins), Note(Alerting.RunAll(ms, ins), i, k).value;
            var open := Delivered(num, dests, BookOf(num, dests, ms, ins, oracle), now, i, replies, k);
            Reaction(dests, Lookup(open, RuleKey(num, n.rule)), n, replies(k))
            == Reaction(dests, SlotsOf(dests, ms, ins, oracle)[k], n, replies(k))
  {
    hide RuleKey, SlotsOf, BookOf, Delivered, Represents, SlotsSound, DistinctKeys, Reaction, Alerting.StepOne,
      Alerting.RulesOf;
    var now := Alerting.RunAll(ms, ins);
    BookRepresentsSlots(num, dests, ms, ins, oracle);
    SlotsSoundOverRun(dests, ms, ins, oracle);
    Alerting.RulesStay(ms, ins);
    DeliverPrefix(num, dests, now, SlotsOf(dests, ms, ins, oracle), BookOf(num, dests, ms, ins, oracle), i, replies, k);
  }

  // ----- and only then -----

  /** Replies that the destinations can give: a webhook has no message timestamps, a bot's are different for every
    post. */
  ghost predicate CanAnswer(dests: map<string, Destination>, rules: seq<Rule>, oracle: Oracle) {
    && (forall t: nat, k: nat :: k < |rules| && rules[k].channel in dests && oracle(t, k).Some? ==>
          (oracle(t, k).value != "" <==> dests[rules[k].channel].Bot()))
    && (forall t: nat, k: nat, t': nat, k': nat ::
          k < |rules| && k' < |rules| && oracle(t, k) == oracle(t', k') && oracle(t, k) !in {None, Some("")} ==>
            t == t' && k == k')
  }

  /** The book behaves as one slot per rule over every run that can occur, whatever Slack answers: it holds what the
    slots hold, and every notification is treated as its own rule's slot demands. */
  ghost predicate AlwaysPrivate(parse: Alerting.Parser, begin: Time, num: LiveView.Printer,
                                dests: map<string, Destination>, rules: seq<Rule>, grace: int) {
    forall ins: seq<Alerting.Input>, oracle: Oracle ::
      AlarmRuns.CanOccur(parse, begin, ins) && CanAnswer(dests, rules, oracle) ==>
        PrivateAfter(num, dests, Alerting.Initial(rules, grace), ins, oracle)
  }

  ghost predicate PrivateAfter(num: LiveView.Printer, dests: map<string, Destination>, ms: Alerting.States,
                               ins: seq<Alerting.Input>, oracle: Oracle) {
    && Represents(num, Alerting.RunAll(ms, ins), SlotsOf(dests, ms, ins, oracle), BookOf(num, dests, ms, ins, oracle))
    && (ins != [] ==> forall k :: 0 <= k < |ms| ==> TreatedPrivately(num, dests, ms, ins, oracle, k))
  }

  /** The notification of rule `k` in the last step, if there is one, is treated as its slot demands. */
  ghost predicate TreatedPrivately(num: LiveView.Printer, dests: map<string, Destination>, ms: Alerting.States,
                                   ins: seq<Alerting.Input>, oracle: Oracle, k: nat)
    requires ins != [] && k < |ms|
  {
    var t := |ins| - 1;
    var now := Alerting.RunAll(ms, ins[..t]);
    var note, replies := Note(now, ins[t], k), At(oracle, t);
    var open := Delivered(num, dests, BookOf(num, dests, ms, ins[..t], oracle), now, ins[t], replies, k);
    note.Some? ==>
      Reaction(dests, Lookup(open, RuleKey(num, note.value.rule)), note.value, replies(k))
      == Reaction(dests, SlotsOf(dests, ms, ins[..t], oracle)[k], note.value, replies(k))
  }

  lemma PrivateWhenDistinct(num: LiveView.Printer, dests: map<string, Destination>, ms: Alerting.States,
                            ins: seq<Alerting.Input>, oracle: Oracle)
    requires DistinctKeys(num, Alerting.RulesOf(ms))
    ensures PrivateAfter(num, dests, ms, ins, oracle)
  {
    hide Represents, DistinctKeys, RuleKey, Note, SlotsOf, BookOf, Delivered, Reaction, Alerting.RulesOf,
      Alerting.RunAll;
    BookRepresentsSlots(num, dests, ms, ins, oracle);
    if ins != [] {
      var t := |ins| - 1;
      forall k | 0 <= k < |ms| && Note(Alerting.RunAll(ms, ins[..t]), ins[t], k).Some?
        ensures TreatedPrivately(num, dests, ms, ins, oracle, k)
      {
        ReactionIsPrivate(num, dests, ms, ins[..t], oracle, ins[t], At(oracle, t), k);
      }
    }
  }

  // ----- a run that shows a shared key -----

  /** Printed thresholds of these rules hold no key separator. */
  ghost predicate NoPipeNumbers(num: LiveView.Printer, rules: seq<Rule>) {
    forall k :: 0 <= k < |rules| ==> LiveView.PipeFree(num(rules[k].threshold))
  }

  /** Rules that share a key are on different streams, or differ in hold time only. */
  lemma SameKeySameCondition(num: LiveView.Printer, a: Rule, b: Rule)
    requires LiveView.PipeFree(num(a.threshold)) && LiveView.PipeFree(num(b.threshold))
    requires num(a.threshold) == num(b.threshold) ==> a.threshold == b.threshold
    ensures RuleKey(num, a) == RuleKey(num, b) && a.stream == b.stream ==>
              AlarmRuns.SameCondition(a, b) && a.channel == b.channel
  {
    hide Paths.PathString, LiveView.PipeFree;
    if RuleKey(num, a) == RuleKey(num, b) && a.stream == b.stream {
      var na, nb := num(a.threshold) + ("|" + a.channel), num(b.threshold) + ("|" + b.channel);
      SameTail(Paths.PathString(a.stream), "|" + (OpName(a.op) + ("|" + na)), "|" + (OpName(b.op) + ("|" + nb)));
      SameTail("|", OpName(a.op) + ("|" + na), OpName(b.op) + ("|" + nb));
      LiveView.OpNameInjective(a.op, b.op);
      LiveView.OpNameInjective(b.op, a.op);
      LiveView.SplitAtPipe(OpName(a.op), OpName(b.op), na, nb);
      LiveView.SplitAtPipe(num(a.threshold), num(b.threshold), a.channel, b.channel);
    }
  }

  lemma SameTail(head: string, a: string, b: string)
    requires head + a == head + b
    ensures a == b
  {
    assert a == (head + a)[|head|..] && b == (head + b)[|head|..];
  }

  /** Timestamps that are all different. */
  function Stamp(t: nat, k: nat): string { seq(t, _ => '1') + "." + seq(k, _ => '1') }

  lemma StampsDiffer(t: nat, k: nat, t': nat, k': nat)
    requires Stamp(t, k) == Stamp(t', k')
    ensures t == t' && k == k'
  {
    var s, s' := Stamp(t, k), Stamp(t', k');
    assert s[t] == '.' && s'[t'] == '.';
    assert forall i :: 0 <= i < t ==> s[i] == '1';
    assert forall i :: 0 <= i < t' ==> s'[i] == '1';
    assert |s| == t + 1 + k && |s'| == t' + 1 + k';
  }

  /** Every post succeeds. */
  function AllSucceed(dests: map<string, Destination>, rules: seq<Rule>): Oracle {
    (t: nat, k: nat) =>
      Some(if k < |rules| && rules[k].channel in dests && dests[rules[k].channel].Bot() then Stamp(t, k) else "")
  }

  lemma AllSucceedCanAnswer(dests: map<string, Destination>, rules: seq<Rule>)
    ensures CanAnswer(dests, rules, AllSucceed(dests, rules))
  {
    hide Stamp;
    var oracle := AllSucceed(dests, rules);
    forall t: nat, k: nat ensures Stamp(t, k) != "" {
      StampIsText(t, k);
    }
    forall t: nat, k: nat, t': nat, k': nat
      | k < |rules| && k' < |rules| && oracle(t, k) == oracle(t', k') && oracle(t, k).value != ""
      ensures t == t' && k == k'
    {
      StampsDiffer(t, k, t', k');
    }
  }

  lemma StampIsText(t: nat, k: nat)
    ensures Stamp(t, k) != ""
  {
    assert |Stamp(t, k)| == t + 1 + k;
  }

  lemma {:induction false} FilledWhenAllSucceed(dests: map<string, Destination>, rules: seq<Rule>, ms: Alerting.States,
                                                ins: seq<Alerting.Input>, k: nat)
    requires k < |ms| && ms[k].rule.channel in dests && !ms[k].fired
    ensures Alerting.RunAll(ms, ins)[k].fired ==> SlotsOf(dests, ms, ins, AllSucceed(dests, rules))[k].Some?
  {
    var t := SlotIsPresentEpisode(dests, ms, ins, AllSucceed(dests, rules), k);
    Alerting.RunKeepsRules(ms, ins);
    if Alerting.RunAll(ms, ins)[k].fired {
      StartIsEarlier(ms, ins, k, t);
      Alerting.RunKeepsRules(ms, ins[..t]);
    }
  }

  /** Inputs after which two rules are firing: the second rule's run begins where the first one's is over. */
  function BothRun(parse: Alerting.Parser, a: Rule, b: Rule, begin: Time, grace: nat, ta: string, tb: string)
    : seq<Alerting.Input>
  {
    AlarmRuns.FireRun(parse, a, begin, grace, ta)
    + AlarmRuns.FireRun(parse, b, AlarmRuns.EndOf(a, begin, grace), grace, tb)
  }

  lemma BothRunOccurs(parse: Alerting.Parser, a: Rule, b: Rule, begin: Time, grace: nat, ta: string, tb: string)
    requires begin >= 1
    ensures BothRun(parse, a, b, begin, grace, ta, tb) != []
    ensures AlarmRuns.CanOccur(parse, begin, BothRun(parse, a, b, begin, grace, ta, tb))
  {
    hide AlarmRuns.CanOccur, AlarmRuns.Until;
    var mid := AlarmRuns.EndOf(a, begin, grace);
    AlarmRuns.FireRunOccurs(parse, a, begin, grace, ta);
    AlarmRuns.FireRunOccurs(parse, b, mid, grace, tb);
    AlarmRuns.OneAfterTheOther(parse, begin, mid, AlarmRuns.FireRun(parse, a, begin, grace, ta),
                               AlarmRuns.FireRun(parse, b, mid, grace, tb));
  }

  lemma BothFire(parse: Alerting.Parser, rules: seq<Rule>, begin: Time, grace: nat,
                 j: nat, k: nat, tj: string, tk: string)
    requires j < |rules| && k < |rules| && begin >= 1
    requires AlarmRuns.BreachedBy(parse, rules[j], tj) && AlarmRuns.BreachedBy(parse, rules[k], tk)
    requires rules[j].stream != rules[k].stream || AlarmRuns.SameCondition(rules[j], rules[k])
    ensures var ins := BothRun(parse, rules[j], rules[k], begin, grace, tj, tk);
            var end := Alerting.RunAll(Alerting.Initial(rules, grace), ins);
            end[j].fired && end[k].fired
  {
    hide AlarmRuns.FireRun, AlarmRuns.BreachedBy, Alerting.RunAll, AlarmRuns.Unsettled;
    var ms, mid := Alerting.Initial(rules, grace), AlarmRuns.EndOf(rules[j], begin, grace);
    var first := AlarmRuns.FireRun(parse, rules[j], begin, grace, tj);
    var second := AlarmRuns.FireRun(parse, rules[k], mid, grace, tk);
    var lit := Alerting.RunAll(ms, first);
    Alerting.RunConcat(ms, first, second);
    Alerting.RunKeepsRules(ms, first);
    AlarmRuns.FreshIsUnsettled(rules[j], grace, begin);
    AlarmRuns.FreshIsUnsettled(rules[k], grace, mid);
    AlarmRuns.FireRunFires(parse, ms, j, begin, grace, tj);
    AlarmRuns.FireRunKeeps(parse, ms, k, rules[j], begin, grace, tj);
    AlarmRuns.FireRunKeeps(parse, lit, j, rules[k], mid, grace, tk);
    AlarmRuns.FireRunFires(parse, lit, k, mid, grace, tk);
  }

  /** Two different rules under one key: let both fire, and the map has lost the message of one of them. */
  lemma SharedKeyLosesOne(parse: Alerting.Parser, begin: Time, num: LiveView.Printer, dests: map<string, Destination>,
                          rules: seq<Rule>, grace: nat, j: nat, k: nat, tj: string, tk: string)
    requires j < |rules| && k < |rules| && RuleKey(num, rules[j]) == RuleKey(num, rules[k]) && rules[j] != rules[k]
    requires rules[j].stream != rules[k].stream || AlarmRuns.SameCondition(rules[j], rules[k])
    requires AlarmRuns.BreachedBy(parse, rules[j], tj) && AlarmRuns.BreachedBy(parse, rules[k], tk)
    requires rules[j].channel in dests && rules[k].channel in dests && begin >= 1
    ensures var ins := BothRun(parse, rules[j], rules[k], begin, grace, tj, tk);
            !PrivateAfter(num, dests, Alerting.Initial(rules, grace), ins, AllSucceed(dests, rules))
  {
    hide RuleKey, SlotsOf, BookOf, BothRun, Alerting.StepAll, Alerting.RunAll, AlarmRuns.BreachedBy, AllSucceed,
      TreatedPrivately;
    var ms, ins := Alerting.Initial(rules, grace), BothRun(parse, rules[j], rules[k], begin, grace, tj, tk);
    BothFire(parse, rules, begin, grace, j, k, tj, tk);
    FilledWhenAllSucceed(dests, rules, ms, ins, j);
    FilledWhenAllSucceed(dests, rules, ms, ins, k);
    SlotsSoundOverRun(dests, ms, ins, AllSucceed(dests, rules));
    Alerting.RunKeepsRules(ms, ins);
    var slots := SlotsOf(dests, ms, ins, AllSucceed(dests, rules));
    assert slots[j].value.fired.rule != slots[k].value.fired.rule;
  }

  /** A key stays away while only notifications under other keys are delivered. */
  lemma {:induction false} StaysAway(num: LiveView.Printer, dests: map<string, Destination>, open: Book,
                                     ms: Alerting.States, i: Alerting.Input, replies: Replies,
                                     a: nat, b: nat, key: string)
    requires a <= b <= |ms| && key !in Delivered(num, dests, open, ms, i, replies, a)
    requires forall m :: a <= m < b ==> RuleKey(num, ms[m].rule) != key
    ensures key !in Delivered(num, dests, open, ms, i, replies, b)
    decreases b - a
  {
    hide RuleKey, Alerting.StepOne;
    if a < b {
      StaysAway(num, dests, open, ms, i, replies, a, b - 1, key);
    }
  }

  lemma ResolvedGoes(num: LiveView.Printer, dests: map<string, Destination>, open: Book, ms: Alerting.States,
                     i: Alerting.Input, replies: Replies, j: nat)
    requires j < |ms| && ms[j].rule.channel in dests && Alerting.StepOne(ms[j], i).1 == Resolved
    ensures RuleKey(num, ms[j].rule) !in Delivered(num, dests, open, ms, i, replies, j + 1)
  {
    hide RuleKey, Alerting.StepOne;
  }

  /** The sample that ends an alarm. */
  function Clearing(parse: Alerting.Parser, r: Rule, at: Time, text: string): Alerting.Input {
    Alerting.Arrive(r.stream, Sample(at, text, ""), parse(text))
  }

  lemma ClearingResolves(parse: Alerting.Parser, m: Monitors.State, at: Time, text: string)
    requires m.fired && AlarmRuns.ClearedBy(parse, m.rule, text)
    ensures Alerting.StepOne(m, Clearing(parse, m.rule, at, text)).1 == Resolved
  {
  }

  /** Two firings of one rule and the sample that ends both. */
  function FireAndClear(parse: Alerting.Parser, r: Rule, begin: Time, grace: nat, breach: string, clear: string)
    : seq<Alerting.Input>
  {
    BothRun(parse, r, r, begin, grace, breach, breach) + [Clearing(parse, r, begin, clear)]
  }

  lemma FireAndClearOccurs(parse: Alerting.Parser, r: Rule, begin: Time, grace: nat, breach: string, clear: string)
    requires begin >= 1
    ensures AlarmRuns.CanOccur(parse, begin, FireAndClear(parse, r, begin, grace, breach, clear))
  {
    hide AlarmRuns.CanOccur, BothRun;
    BothRunOccurs(parse, r, r, begin, grace, breach, breach);
    AlarmRuns.ThenSample(parse, begin, BothRun(parse, r, r, begin, grace, breach, breach), r.stream,
                         Sample(begin, clear, ""));
  }

  /** One rule configured twice: let both fire and resolve, and the second resolution finds its alert gone. */
  lemma RepeatedRuleLosesOne(parse: Alerting.Parser, begin: Time, num: LiveView.Printer,
                             dests: map<string, Destination>, rules: seq<Rule>, grace: nat,
                             j: nat, k: nat, breach: string, clear: string)
    requires j < k < |rules| && rules[j] == rules[k] && rules[j].channel in dests && begin >= 1
    requires forall m :: j < m < k ==> RuleKey(num, rules[m]) != RuleKey(num, rules[j])
    requires AlarmRuns.BreachedBy(parse, rules[j], breach) && AlarmRuns.ClearedBy(parse, rules[j], clear)
    ensures var ins := FireAndClear(parse, rules[j], begin, grace, breach, clear);
            !TreatedPrivately(num, dests, Alerting.Initial(rules, grace), ins, AllSucceed(dests, rules), k)
  {
    hide RuleKey, SlotsOf, BookOf, Delivered, BothRun, Clearing, Alerting.StepOne, Alerting.RunAll,
      AlarmRuns.BreachedBy, AlarmRuns.ClearedBy, AllSucceed;
    var ms, r := Alerting.Initial(rules, grace), rules[j];
    var ins, i := BothRun(parse, r, r, begin, grace, breach, breach), Clearing(parse, r, begin, clear);
    assert (ins + [i])[..|ins|] == ins;
    BothFire(parse, rules, begin, grace, j, k, breach, breach);
    var now := Alerting.RunAll(ms, ins);
    Alerting.RunKeepsRules(ms, ins);
    ClearingResolves(parse, now[j], begin, clear);
    ClearingResolves(parse, now[k], begin, clear);
    FilledWhenAllSucceed(dests, rules, ms, ins, k);
    var oracle := AllSucceed(dests, rules);
    var open, replies := BookOf(num, dests, ms, ins, oracle), At(oracle, |ins|);
    ResolvedGoes(num, dests, open, now, i, replies, j);
    StaysAway(num, dests, open, now, i, replies, j + 1, k, RuleKey(num, r));
  }

  /** Of the rules that share a key, two with none in between. */
  lemma {:induction false} Neighbours(num: LiveView.Printer, rules: seq<Rule>, j: nat, k: nat) returns (a: nat, b: nat)
    requires j < k < |rules| && RuleKey(num, rules[j]) == RuleKey(num, rules[k])
    ensures a < b < |rules| && RuleKey(num, rules[a]) == RuleKey(num, rules[b])
    ensures forall m :: a < m < b ==> RuleKey(num, rules[m]) != RuleKey(num, rules[a])
    decreases k - j
  {
    hide RuleKey;
    a, b := j, k;
    if m :| j < m < k && RuleKey(num, rules[m]) == RuleKey(num, rules[j]) {
      a, b := Neighbours(num, rules, j, m);
    }
  }

  lemma SharedKeyIsSeen(parse: Alerting.Parser, begin: Time, num: LiveView.Printer, dests: map<string, Destination>,
                        rules: seq<Rule>, grace: nat, j: nat, k: nat)
    requires LiveView.TellsApart(num, rules) && NoPipeNumbers(num, rules) && AlarmRuns.Crossable(parse, rules)
    requires forall k :: 0 <= k < |rules| ==> rules[k].channel in dests
    requires j < k < |rules| && RuleKey(num, rules[j]) == RuleKey(num, rules[k]) && begin >= 1
    requires forall m :: j < m < k ==> RuleKey(num, rules[m]) != RuleKey(num, rules[j])
    ensures !AlwaysPrivate(parse, begin, num, dests, rules, grace)
  {
    hide RuleKey, CanAnswer, AllSucceed, BothRun, Clearing, TreatedPrivately, Represents, LiveView.PipeFree,
      AlarmRuns.BreachedBy, AlarmRuns.ClearedBy, AlarmRuns.CanOccur;
    SameKeySameCondition(num, rules[j], rules[k]);
    AllSucceedCanAnswer(dests, rules);
    var breach :| AlarmRuns.BreachedBy(parse, rules[j], breach);
    var other :| AlarmRuns.BreachedBy(parse, rules[k], other);
    var clear :| AlarmRuns.ClearedBy(parse, rules[j], clear);
    if rules[j] == rules[k] {
      var ins := FireAndClear(parse, rules[j], begin, grace, breach, clear);
      FireAndClearOccurs(parse, rules[j], begin, grace, breach, clear);
      RepeatedRuleLosesOne(parse, begin, num, dests, rules, grace, j, k, breach, clear);
      assert !PrivateAfter(num, dests, Alerting.Initial(rules, grace), ins, AllSucceed(dests, rules));
    } else {
      BothRunOccurs(parse, rules[j], rules[k], begin, grace, breach, other);
      SharedKeyLosesOne(parse, begin, num, dests, rules, grace, j, k, breach, other);
    }
  }

  /** Whenever the program is started, the map serves every rule as if it had a slot of its own, over every run that can
    occur and every failure pattern, exactly when the rules' keys are pairwise distinct. */
  lemma PrivateIffDistinctKeys(parse: Alerting.Parser, begin: Time, num: LiveView.Printer,
                               dests: map<string, Destination>, rules: seq<Rule>, grace: nat)
    requires LiveView.TellsApart(num, rules) && NoPipeNumbers(num, rules) && AlarmRuns.Crossable(parse, rules)
    requires forall k :: 0 <= k < |rules| ==> rules[k].channel in dests
    requires begin >= 1
    ensures AlwaysPrivate(parse, begin, num, dests, rules, grace) <==> DistinctKeys(num, rules)
  {
    hide RuleKey, PrivateAfter, NoPipeNumbers, LiveView.TellsApart, AlarmRuns.Crossable, CanAnswer, AlarmRuns.CanOccur;
    var ms := Alerting.Initial(rules, grace);
    assert Alerting.RulesOf(ms) == rules;
    if DistinctKeys(num, rules) {
      forall ins: seq<Alerting.Input>, oracle: Oracle ensures PrivateAfter(num, dests, ms, ins, oracle) {
        PrivateWhenDistinct(num, dests, ms, ins, oracle);
      }
    }
    forall j, k | 0 <= j < k < |rules| && RuleKey(num, rules[j]) == RuleKey(num, rules[k])
      ensures !AlwaysPrivate(parse, begin, num, dests, rules, grace)
    {
      var a, b := Neighbours(num, rules, j, k);
      SharedKeyIsSeen(parse, begin, num, dests, rules, grace, a, b);
    }
  }
}
