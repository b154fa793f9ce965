/** The message list that is sent to the chat model: system prompt, history, and a reminder near the end. */
module RequestMessages {
  import opened Bytes
  import opened Messages
  import opened Pairing
  import opened EngineHistory

  /** Position of the last user message, or the end of the history. */
  function LastUser(h: seq<Message>): (i: nat)
    ensures i <= |h|
  {
    if SegmentStart(h) == 0 then |h| else SegmentStart(h) - 1
  }

  method FindLastUserIndex(h: seq<Message>) returns (r: nat)
    ensures r == LastUser(h)
  {
    var i := |h|;
    while i > 0
      invariant SegmentStart(h) <= i <= |h|
    {
      i := i - 1;
      if h[i].role.User? {
        return i;
      }
    }
    r := |h|;
  }

  /** A reminder is due when one is registered, and the history has reached the threshold. */
  function Reminder(threshold: int, historyLength: nat, content: string): string {
    if threshold <= 0 || historyLength < threshold then "" else content
  }

  function ReminderMessage(text: string): Message {
    UserMessage("[System Reminder] " + text)
  }

  function WithReminder(h: seq<Message>, reminder: string): seq<Message> {
    if reminder == "" then h else h[..LastUser(h)] + [ReminderMessage(reminder)] + h[LastUser(h)..]
  }

  function Request(h: seq<Message>, system: string, reminder: string): seq<Message> {
    (if system == "" then [] else [SystemMessage(system)]) + WithReminder(h, reminder)
  }

  method BuildMessages(h: seq<Message>, system: string, threshold: int, content: string) returns (msgs: seq<Message>)
    ensures msgs == Request(h, system, Reminder(threshold, |h|, content))
  {
    var reminder := Reminder(threshold, |h|, content);
    msgs := [];
    if system != "" {
      msgs := msgs + [SystemMessage(system)];
    }
    if reminder == "" {
      return msgs + h;
    }
    ghost var front := msgs;
    var at := FindLastUserIndex(h);
    var m := ReminderMessage(reminder);
    for i := 0 to |h|
      invariant msgs == front + Inserted(h, i, at, m)
    {
      InsertedStep(h, i, at, m);
      if i == at {
        msgs := msgs + [m];
      }
      msgs := msgs + [h[i]];
    }
    assert h[..|h|] == h && h[|h|..] == [];
    if at == |h| {
      msgs := msgs + [m];
    }
  }

  /** The first `i` messages, with `m` before message `at` once that has come. */
  ghost function Inserted(h: seq<Message>, i: nat, at: nat, m: Message): seq<Message>
    requires i <= |h|
  {
    if i <= at then h[..i] else h[..at] + [m] + h[at..i]
  }

  lemma {:induction false} InsertedStep(h: seq<Message>, i: nat, at: nat, m: Message)
    requires i < |h|
    ensures Inserted(h, i + 1, at, m) == Inserted(h, i, at, m) + (if i == at then [m] else []) + [h[i]]
  {
    if i >= at {
      assert h[at..i + 1] == h[at..i] + [h[i]];
    }
  }

  lemma {:induction false} ReminderPaired(h: seq<Message>, reminder: string)
    requires WellPaired(h)
    ensures WellPaired(WithReminder(h, reminder))
  {
    var at := LastUser(h);
    PairedCut(h, at);
    PairedOne(ReminderMessage(reminder));
    PairedConcat(h[..at], [ReminderMessage(reminder)]);
    PairedConcat(h[..at] + [ReminderMessage(reminder)], h[at..]);
  }

  /** Main result: the list sent to the model never splits a call from its results, and with the reminder and the system
      prompt taken out it is the history. */
  lemma {:induction false} RequestPaired(h: seq<Message>, system: string, reminder: string)
    requires WellPaired(h)
    ensures WellPaired(Request(h, system, reminder))
    ensures Stripped(Request(h, system, reminder), h, system, reminder) == h
  {
    var g := WithReminder(h, reminder);
    ReminderPaired(h, reminder);
    RequestStripped(h, system, reminder);
    if system == "" {
      assert [] + g == g;
    } else {
      PairedOne(SystemMessage(system));
      PairedConcat([SystemMessage(system)], g);
    }
  }

  /** A request without the system prompt in front and without what stands before the last user message. */
  function Stripped(request: seq<Message>, h: seq<Message>, system: string, reminder: string): seq<Message>
    requires |request| >= |h| + (if system == "" then 0 else 1) + (if reminder == "" then 0 else 1)
  {
    var r := if system == "" then request else request[1..];
    if reminder == "" then r else r[..LastUser(h)] + r[LastUser(h) + 1..]
  }

  lemma {:induction false} RequestStripped(h: seq<Message>, system: string, reminder: string)
    ensures |Request(h, system, reminder)| == |h| + (if system == "" then 0 else 1) + (if reminder == "" then 0 else 1)
    ensures Stripped(Request(h, system, reminder), h, system, reminder) == h
  {
    var g := WithReminder(h, reminder);
    assert [] + g == g;
    assert ([SystemMessage(system)] + g)[1..] == g;
    TakeOut(h, LastUser(h), ReminderMessage(reminder));
  }

  lemma {:induction false} TakeOut(h: seq<Message>, i: nat, m: Message)
    requires i <= |h|
    ensures var g := h[..i] + [m] + h[i..]; |g| == |h| + 1 && g[..i] + g[i + 1..] == h
  {
    var g := h[..i] + [m] + h[i..];
    assert g[..i] == h[..i] && g[i + 1..] == h[i..];
  }

  lemma {:induction false} PairedOne(m: Message)
    requires Plain(m)
    ensures WellPaired([m])
  {
    assert [m][1..] == [];
  }

  /** The last user message, if there is one. */
  lemma {:induction false} LastUserMeaning(h: seq<Message>)
    ensures var i := LastUser(h);
            && (i < |h| ==> h[i].role.User?)
            && (forall j :: i < j < |h| ==> !h[j].role.User?)
            && (i == |h| ==> forall j :: 0 <= j < |h| ==> !h[j].role.User?)
  {}

  /** Where everything stands in a request: the system prompt first, if there is one; a reminder right before the last user
      message, or at the end if there is none. */
  lemma {:induction false} RequestLayout(h: seq<Message>, system: string, reminder: string, i: nat)
    requires i <= |h| && (i < |h| ==> h[i].role.User?) && forall j :: i < j < |h| ==> !h[j].role.User?
    requires i == |h| ==> forall j :: 0 <= j < |h| ==> !h[j].role.User?
    ensures Request(h, system, reminder) ==
              (if system == "" then [] else [Message(System, Some(system), [], "")]) +
              (if reminder == "" then h else h[..i] + [Message(User, Some("[System Reminder] " + reminder), [], "")] + h[i..])
  {
    LastUserMeaning(h);
    assert LastUser(h) == i;
  }

  /** A reminder is due exactly when one is registered and the history has reached its threshold. */
  lemma {:induction false} ReminderDue(threshold: int, historyLength: nat, content: string)
    ensures Reminder(threshold, historyLength, content) != "" <==> content != "" && 0 < threshold <= historyLength
    ensures Reminder(threshold, historyLength, content) != "" ==> Reminder(threshold, historyLength, content) == content
  {}
}
