/** The notification gate (src/notifier.py): a title and a body with a status predicate,
    dispatched in three modes. Sending an e-mail appends it to an `Outbox` and prints a
    confirmation line; the predicate is a `StatusCheck` whose successive answers are given. */
module Notifications {

  const Subject := "Course Sniper -- Your Course Is Open"

  datatype Mail = Mail(subject: string, body: string, to: string)

  /** Everything sent, in order, and the lines printed to the console. */
  class Outbox {
    var mails: seq<Mail>
    var console: seq<string>

    constructor ()
      ensures mails == [] && console == []
    {
      mails := [];
      console := [];
    }
  }

  /** A status predicate: it answers `script` in order, then `fallback` from then on.
      `history` records every answer it has given. */
  class StatusCheck {
    var script: seq<bool>
    var fallback: bool
    var history: seq<bool>

    /** The default predicate of the source, which always returns true. */
    constructor AlwaysTrue()
      ensures script == [] && fallback && history == []
    {
      script := [];
      fallback := true;
      history := [];
    }

    constructor (script: seq<bool>, fallback: bool)
      ensures this.script == script && this.fallback == fallback && history == []
    {
      this.script := script;
      this.fallback := fallback;
      history := [];
    }

    /** The answer the `i`-th evaluation from now will give. */
    function Answer(i: nat): bool
      reads this
    {
      if i < |script| then script[i] else fallback
    }

    /** Some evaluation from now on answers true. */
    predicate EventuallyTrue()
      reads this
    {
      fallback || true in script
    }

    method Evaluate() returns (b: bool)
      modifies this
      ensures b == old(Answer(0))
      ensures history == old(history) + [b]
      ensures fallback == old(fallback)
      ensures script == if old(script) == [] then [] else old(script)[1..]
      ensures forall i: nat :: Answer(i) == old(Answer(i + 1))
    {
      if script == [] {
        b := fallback;
      } else {
        b := script[0];
        script := script[1..];
      }
      history := history + [b];
    }
  }

  class Notifier {
    var title: string
    var info: string
    var statusCheck: StatusCheck

    /** Without a predicate (`state == null`) the notifier gets one that always answers true. */
    constructor (title: string, info: string, state: StatusCheck?)
      ensures this.title == title && this.info == info
      ensures state != null ==> statusCheck == state
      ensures state == null ==> fresh(statusCheck) && statusCheck.script == [] && statusCheck.fallback
      ensures state == null ==> statusCheck.history == []
    {
      this.title := title;
      this.info := info;
      if state == null {
        statusCheck := new StatusCheck.AlwaysTrue();
      } else {
        statusCheck := state;
      }
    }

    /** The e-mail `send` delivers to `email`. */
    function Message(email: string): Mail
      reads this
    {
      Mail(Subject, info + ": " + title, email)
    }

    method Send(email: string, outbox: Outbox)
      modifies outbox
      ensures outbox.mails == old(outbox.mails) + [Mail(Subject, info + ": " + title, email)]
      ensures outbox.console == old(outbox.console) + ["Sent email to " + email]
    {
      outbox.mails := outbox.mails + [Message(email)];
      outbox.console := outbox.console + ["Sent email to " + email];
    }

    /** Busy-waits until the predicate answers true, then sends once. */
    method Run(email: string, outbox: Outbox)
      requires statusCheck.EventuallyTrue()
      modifies statusCheck, outbox
      ensures |statusCheck.history| > |old(statusCheck.history)|
      ensures statusCheck.history[..|old(statusCheck.history)|] == old(statusCheck.history)
      ensures var evals := statusCheck.history[|old(statusCheck.history)|..];
        && (forall i :: 0 <= i < |evals| ==> evals[i] == old(statusCheck.Answer(i)))
        && (forall i :: 0 <= i < |evals| - 1 ==> !evals[i])
        && evals[|evals| - 1]
      ensures statusCheck.fallback == old(statusCheck.fallback)
      ensures var n := |statusCheck.history| - |old(statusCheck.history)|;
        forall i: nat :: statusCheck.Answer(i) == old(statusCheck.Answer(i + n))
      ensures outbox.mails == old(outbox.mails) + [Message(email)]
      ensures outbox.console == old(outbox.console) + ["Sent email to " + email]
    {
      ghost var h0 := statusCheck.history;
      var ok := statusCheck.Evaluate();
      ghost var evals := [ok];
      while !ok
        invariant statusCheck.history == h0 + evals && |evals| >= 1
        invariant forall i :: 0 <= i < |evals| ==> evals[i] == old(statusCheck.Answer(i))
        invariant forall i: nat :: statusCheck.Answer(i) == old(statusCheck.Answer(|evals| + i))
        invariant forall i :: 0 <= i < |evals| - 1 ==> !evals[i]
        invariant ok == evals[|evals| - 1]
        invariant !ok ==> statusCheck.EventuallyTrue()
        invariant statusCheck.fallback == old(statusCheck.fallback)
        invariant outbox.mails == old(outbox.mails) && outbox.console == old(outbox.console)
        decreases |statusCheck.script| + (if ok then 0 else 1)
      {
        ok := statusCheck.Evaluate();
        evals := evals + [ok];
      }
      assert statusCheck.history[..|h0|] == h0 && statusCheck.history[|h0|..] == evals;
      Send(email, outbox);
    }

    /** Evaluates the predicate once and sends only if it answered true. */
    method RunAsync(email: string, outbox: Outbox)
      modifies statusCheck, outbox
      ensures statusCheck.history == old(statusCheck.history) + [old(statusCheck.Answer(0))]
      ensures statusCheck.fallback == old(statusCheck.fallback)
      ensures forall i: nat :: statusCheck.Answer(i) == old(statusCheck.Answer(i + 1))
      ensures outbox.mails == old(outbox.mails) + (if old(statusCheck.Answer(0)) then [Message(email)] else [])
      ensures outbox.console == old(outbox.console) + (if old(statusCheck.Answer(0)) then ["Sent email to " + email] else [])
    {
      var ok := statusCheck.Evaluate();
      if ok {
        Send(email, outbox);
      }
    }

    /** Sends once, without consulting the predicate. */
    method RunForce(email: string, outbox: Outbox)
      modifies outbox
      ensures outbox.mails == old(outbox.mails) + [Message(email)]
      ensures outbox.console == old(outbox.console) + ["Sent email to " + email]
    {
      Send(email, outbox);
    }
  }

  /** With the default predicate, `run_async` sends exactly once. */
  method DefaultRunAsyncSendsOnce(title: string, info: string, email: string, outbox: Outbox)
    modifies outbox
    ensures outbox.mails == old(outbox.mails) + [Mail(Subject, info + ": " + title, email)]
    ensures outbox.console == old(outbox.console) + ["Sent email to " + email]
  {
    var n := new Notifier(title, info, null);
    n.RunAsync(email, outbox);
  }
}
