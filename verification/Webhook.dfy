/** The rate limit on "wake-up denied" notifications (crafty_server_watcher/webhook.py). */
module Webhook {
  import opened Common

  /** Per server: when the last message went out, and how many attempts were swallowed since. */
  datatype Limiter = Limiter(last: map<string, real>, suppressed: map<string, nat>)

  const EMPTY := Limiter(map[], map[])

  /** A message reports its own attempt and `suppressed` further ones. */
  datatype Message = Message(server: string, time: real, suppressed: nat)

  datatype Refusal = Refusal(server: string, time: real)

  function Cooldown(minutes: int): real {
    if minutes < 0 then 0.0 else minutes as real * 60.0
  }

  function Pending(l: Limiter, server: string): nat {
    if server in l.suppressed then l.suppressed[server] else 0
  }

  function Notify(cooldown: real, l: Limiter, x: Refusal): (Limiter, Option<Message>) {
    if x.server in l.last && x.time - l.last[x.server] < cooldown then
      (l.(suppressed := l.suppressed[x.server := Pending(l, x.server) + 1]), None)
    else
      (Limiter(l.last[x.server := x.time], l.suppressed - {x.server}),
       Some(Message(x.server, x.time, Pending(l, x.server))))
  }

  /** The limiter and the messages after a sequence of refusals. */
  function Run(cooldown: real, xs: seq<Refusal>): (Limiter, seq<Message>) {
    if xs == [] then (EMPTY, [])
    else
      var (l, sent) := Run(cooldown, xs[..|xs| - 1]);
      var (l', message) := Notify(cooldown, l, xs[|xs| - 1]);
      (l', if message.None? then sent else sent + [message.value])
  }

  function Attempts(xs: seq<Refusal>, server: string): nat {
    if xs == [] then 0
    else Attempts(xs[..|xs| - 1], server) + if xs[|xs| - 1].server == server then 1 else 0
  }

  /** Attempts the messages about a server account for: one each, plus what they report suppressed. */
  function Reported(sent: seq<Message>, server: string): nat {
    if sent == [] then 0
    else
      var m := sent[|sent| - 1];
      Reported(sent[..|sent| - 1], server) + if m.server == server then 1 + m.suppressed else 0
  }

  /** One refusal moves exactly one attempt into its message, if any, or into the pending count. */
  lemma NotifyAccounts(cooldown: real, l: Limiter, x: Refusal, server: string)
    ensures var (l', message) := Notify(cooldown, l, x);
            Pending(l', server) + (if message.Some? && x.server == server then 1 + message.value.suppressed else 0)
            == Pending(l, server) + if x.server == server then 1 else 0
  {
  }

  /** No attempt is lost: each was a message, was reported by one, or is still pending. */
  lemma {:induction false} EveryAttemptIsAccountedFor(cooldown: real, xs: seq<Refusal>, server: string)
    ensures var (l, sent) := Run(cooldown, xs);
            Attempts(xs, server) == Reported(sent, server) + Pending(l, server)
  {
    if xs == [] {
    } else {
      var x := xs[|xs| - 1];
      EveryAttemptIsAccountedFor(cooldown, xs[..|xs| - 1], server);
      var (l, sent) := Run(cooldown, xs[..|xs| - 1]);
      var (_, message) := Notify(cooldown, l, x);
      NotifyAccounts(cooldown, l, x, server);
      if message.Some? {
        assert (sent + [message.value])[..|sent|] == sent;
      }
    }
  }

  /** The last message about each server is the one the limiter remembers. */
  ghost predicate Remembers(l: Limiter, sent: seq<Message>) {
    && (forall i :: 0 <= i < |sent| ==> sent[i].server in l.last && sent[i].time <= l.last[sent[i].server])
    && (forall s :: s in l.last ==> exists i :: 0 <= i < |sent| && sent[i].server == s && sent[i].time == l.last[s])
  }

  /** Two messages about the same server, in this order, are at least the cooldown apart. */
  ghost predicate Spaced(cooldown: real, sent: seq<Message>) {
    forall i, j :: 0 <= i < j < |sent| && sent[i].server == sent[j].server ==>
      sent[j].time - sent[i].time >= cooldown
  }

  /** One refusal keeps both. */
  lemma NotifyKeepsSpacing(cooldown: real, l: Limiter, sent: seq<Message>, x: Refusal)
    requires Spaced(cooldown, sent) && Remembers(l, sent) && Notify(cooldown, l, x).1.Some? && cooldown >= 0.0
    ensures Spaced(cooldown, sent + [Notify(cooldown, l, x).1.value])
  {
    var message := Notify(cooldown, l, x).1.value;
    var all := sent + [message];
    forall i, j | 0 <= i < j < |all| && all[i].server == all[j].server
      ensures all[j].time - all[i].time >= cooldown
    {
      if j < |sent| {
        assert all[i] == sent[i] && all[j] == sent[j];
      } else {
        assert all[i] == sent[i] && all[j] == message;
        assert sent[i].server in l.last && sent[i].time <= l.last[sent[i].server];
      }
    }
  }

  lemma NotifyKeepsMemory(cooldown: real, l: Limiter, sent: seq<Message>, x: Refusal)
    requires Remembers(l, sent) && Notify(cooldown, l, x).1.Some? && cooldown >= 0.0
    ensures Remembers(Notify(cooldown, l, x).0, sent + [Notify(cooldown, l, x).1.value])
  {
    var (l', message) := Notify(cooldown, l, x);
    var all := sent + [message.value];
    forall i | 0 <= i < |all|
      ensures all[i].server in l'.last && all[i].time <= l'.last[all[i].server]
    {
      assert i < |sent| ==> all[i] == sent[i];
    }
    forall s | s in l'.last
      ensures exists i :: 0 <= i < |all| && all[i].server == s && all[i].time == l'.last[s]
    {
      if s == x.server {
        assert all[|sent|] == message.value;
      } else {
        var i :| 0 <= i < |sent| && sent[i].server == s && sent[i].time == l.last[s];
        assert all[i] == sent[i];
      }
    }
  }

  lemma {:induction false} MessagesAreSpaced(minutes: int, xs: seq<Refusal>)
    ensures var (l, sent) := Run(Cooldown(minutes), xs);
            Spaced(Cooldown(minutes), sent) && Remembers(l, sent) && Spaced(60.0 * minutes as real, sent)
  {
    CooldownExactly(minutes);
    if xs == [] {
    } else {
      var cooldown, x := Cooldown(minutes), xs[|xs| - 1];
      MessagesAreSpaced(minutes, xs[..|xs| - 1]);
      var (l, sent) := Run(cooldown, xs[..|xs| - 1]);
      if Notify(cooldown, l, x).1.Some? {
        NotifyKeepsSpacing(cooldown, l, sent, x);
        NotifyKeepsMemory(cooldown, l, sent, x);
      }
    }
  }

  /** When the last message about a server went out. */
  function LastSent(sent: seq<Message>, server: string): Option<real> {
    if sent == [] then None
    else if sent[|sent| - 1].server == server then Some(sent[|sent| - 1].time)
    else LastSent(sent[..|sent| - 1], server)
  }

  lemma {:induction false} LastSentIsRemembered(cooldown: real, xs: seq<Refusal>, server: string)
    ensures var (l, sent) := Run(cooldown, xs);
            LastSent(sent, server) == if server in l.last then Some(l.last[server]) else None
  {
    if xs == [] {
    } else {
      LastSentIsRemembered(cooldown, xs[..|xs| - 1], server);
      var (l, sent) := Run(cooldown, xs[..|xs| - 1]);
      var (_, message) := Notify(cooldown, l, xs[|xs| - 1]);
      if message.Some? {
        assert (sent + [message.value])[..|sent|] == sent;
      }
    }
  }

  /** The cooldown is the configured minutes, in seconds; none or fewer switch the limit off. */
  lemma CooldownExactly(minutes: int)
    ensures minutes >= 0 ==> Cooldown(minutes) == 60.0 * minutes as real
    ensures minutes <= 0 ==> Cooldown(minutes) == 0.0
  {
  }

  /** A refusal goes unannounced exactly while the last message about its server is within the cooldown. */
  lemma SuppressedExactly(minutes: int, xs: seq<Refusal>, x: Refusal)
    ensures var (l, sent) := Run(Cooldown(minutes), xs);
            var last := LastSent(sent, x.server);
            var message := Notify(Cooldown(minutes), l, x).1;
            && (message.None? <==> last.Some? && x.time - last.value < if minutes > 0 then 60.0 * minutes as real else 0.0)
            && (message.Some? ==> message.value.server == x.server && message.value.time == x.time)
  {
    LastSentIsRemembered(Cooldown(minutes), xs, x.server);
  }

  class WebhookNotifier {
    const cooldown: real
    var deniedLast: map<string, real>
    var deniedSuppressed: map<string, nat>

    ghost function Value(): Limiter
      reads this
    {
      Limiter(deniedLast, deniedSuppressed)
    }

    constructor (cooldownMinutes: int)
      ensures Value() == EMPTY && cooldown == Cooldown(cooldownMinutes)
    {
      cooldown := Cooldown(cooldownMinutes);
      deniedLast, deniedSuppressed := map[], map[];
    }

    method NotifyDenied(server: string, now: real) returns (message: Option<Message>)
      modifies this
      ensures (Value(), message) == Notify(cooldown, old(Value()), Refusal(server, now))
    {
      if server in deniedLast && now - deniedLast[server] < cooldown {
        var swallowed := if server in deniedSuppressed then deniedSuppressed[server] else 0;
        deniedSuppressed := deniedSuppressed[server := swallowed + 1];
        return None;
      }
      var suppressed := if server in deniedSuppressed then deniedSuppressed[server] else 0;
      deniedSuppressed := deniedSuppressed - {server};
      deniedLast := deniedLast[server := now];
      return Some(Message(server, now, suppressed));
    }
  }
}
