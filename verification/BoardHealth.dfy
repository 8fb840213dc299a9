/**
 The board's agent-health readout (board_stream.go, board.templ), sent only when its signature changes. The
 signature caps failure counts the readout prints in full, and counts failures the readout does not print.
 */
module BoardHealth {
  import opened Options
  import opened Slices
  import opened Text
  import Versions

  datatype ScheduledAgent = ScheduledAgent(name: string, trigger: string, enabled: bool, failures: nat)

  const NUL: char := '\U{0}'

  predicate Unhealthy(a: ScheduledAgent) {
    a.trigger == "reaction" && (!a.enabled || a.failures > 0)
  }

  /** boardUnhealthyAgents. */
  function Broken(agents: seq<ScheduledAgent>): seq<ScheduledAgent> {
    if agents == [] then []
    else
      var n := |agents| - 1;
      if Unhealthy(agents[n]) then Broken(agents[..n]) + [agents[n]] else Broken(agents[..n])
  }

  // ----- the readout -----

  /** One badge of the readout: a disabled agent, or a failing one with its whole count. */
  datatype Badge = Disabled(name: string) | Failing(name: string, count: nat)

  function BadgeOf(a: ScheduledAgent): Badge {
    if a.enabled then Failing(a.name, a.failures) else Disabled(a.name)
  }

  function Readout(agents: seq<ScheduledAgent>): seq<Badge> {
    Each(Broken(agents), BadgeOf)
  }

  /** Who is on the readout: every reaction agent that is disabled, and every enabled one that has failed at
      least once, with its whole count; nobody else. */
  lemma ReadoutMeans(agents: seq<ScheduledAgent>, name: string, count: nat)
    ensures Disabled(name) in Readout(agents) <==>
            exists a :: a in agents && a.name == name && a.trigger == "reaction" && !a.enabled
    ensures Failing(name, count) in Readout(agents) <==>
            exists a :: a in agents && a.name == name && a.trigger == "reaction" && a.enabled && a.failures == count && count >= 1
  {
    hide Broken;
    BrokenAreAgents(agents);
    var bs := Broken(agents);
    forall b: Badge
      ensures b in Readout(agents) <==> exists a :: a in bs && BadgeOf(a) == b
    {
      if a :| a in bs && BadgeOf(a) == b {
        var i :| 0 <= i < |bs| && bs[i] == a;
        assert Readout(agents)[i] == b;
      }
    }
    if a :| a in agents && a.name == name && a.trigger == "reaction" && !a.enabled {
      assert a in bs && BadgeOf(a) == Disabled(name);
    }
    if a :| a in agents && a.name == name && a.trigger == "reaction" && a.enabled && a.failures == count && count >= 1 {
      assert a in bs && BadgeOf(a) == Failing(name, count);
    }
  }

  /** The badges stand in the order of the agents. */
  lemma {:induction false} ReadoutInOrder(xs: seq<ScheduledAgent>, ys: seq<ScheduledAgent>)
    ensures Readout(xs + ys) == Readout(xs) + Readout(ys)
  {
    hide BadgeOf, Unhealthy;
    if ys == [] {
      assert xs + ys == xs && Readout(ys) == [];
    } else {
      var n := |ys| - 1;
      assert (xs + ys)[..|xs + ys| - 1] == xs + ys[..n];
      ReadoutInOrder(xs, ys[..n]);
    }
  }

  // ----- the signature -----

  function Min9(n: nat): nat {
    if n < 9 then n else 9
  }

  function Entry(a: ScheduledAgent): string {
    a.name + [NUL] + [if a.enabled then '1' else '0'] + [('0' as int + Min9(a.failures)) as char] + [NUL]
  }

  function Entries(bs: seq<ScheduledAgent>): string {
    if bs == [] then "" else Entries(bs[..|bs| - 1]) + Entry(bs[|bs| - 1])
  }

  ghost function Signature(agents: seq<ScheduledAgent>): string {
    Entries(Broken(agents))
  }

  /** boardUnhealthyAgents and boardHealthSignature. */
  method BoardHealthSignature(agents: seq<ScheduledAgent>) returns (b: string)
    ensures b == Signature(agents)
  {
    assert Entries(Broken([])) == "";
    hide Entry, Entries, Broken;
    b := "";
    for i := 0 to |agents|
      invariant b == Entries(Broken(agents[..i]))
    {
      var a := agents[i];
      SignatureNext(agents, i);
      if a.trigger == "reaction" && (!a.enabled || a.failures > 0) {
        ghost var before := b;
        b := b + a.name;
        b := b + [NUL];
        b := b + [if a.enabled then '1' else '0'];
        b := b + [('0' as int + Min9(a.failures)) as char];
        b := b + [NUL];
        EntryIs(before, a);
      }
    }
    assert agents[..|agents|] == agents;
  }

  lemma SignatureNext(agents: seq<ScheduledAgent>, i: nat)
    requires i < |agents|
    ensures Entries(Broken(agents[..i + 1])) ==
            Entries(Broken(agents[..i])) + if Unhealthy(agents[i]) then Entry(agents[i]) else ""
  {
    hide Entry;
    assert agents[..i + 1][..i] == agents[..i];
    var r, r' := Broken(agents[..i]), Broken(agents[..i + 1]);
    if Unhealthy(agents[i]) {
      assert r'[..|r|] == r;
    }
  }

  lemma EntryIs(before: string, a: ScheduledAgent)
    ensures before + a.name + [NUL] + [if a.enabled then '1' else '0'] + [('0' as int + Min9(a.failures)) as char] + [NUL] ==
            before + Entry(a)
  {
  }

  // ----- what a signature identifies -----

  ghost predicate CleanNames(agents: seq<ScheduledAgent>) {
    forall a | a in agents :: NUL !in a.name
  }

  lemma {:induction false} BrokenAreAgents(agents: seq<ScheduledAgent>)
    ensures forall a :: a in Broken(agents) <==> a in agents && Unhealthy(a)
  {
    if agents != [] {
      var n := |agents| - 1;
      BrokenAreAgents(agents[..n]);
      assert agents == agents[..n] + [agents[n]];
    }
  }

  /** Two agents a signature cannot tell apart. */
  predicate SameEntry(a: ScheduledAgent, b: ScheduledAgent) {
    a.name == b.name && a.enabled == b.enabled && Min9(a.failures) == Min9(b.failures)
  }

  ghost predicate SameEntries(bs: seq<ScheduledAgent>, cs: seq<ScheduledAgent>) {
    |bs| == |cs| && forall i :: 0 <= i < |bs| ==> SameEntry(bs[i], cs[i])
  }

  /** Entries read from the front. */
  lemma {:induction false} EntriesFront(bs: seq<ScheduledAgent>)
    requires bs != []
    ensures Entries(bs) == Entry(bs[0]) + Entries(bs[1..])
  {
    hide Entry;
    var n := |bs| - 1;
    if n == 0 {
      assert bs[..0] == [] && bs[1..] == [];
    } else {
      EntriesFront(bs[..n]);
      EntriesLast(bs);
      EntriesLast(bs[1..]);
      hide Entries;
      assert bs[..n][1..] == bs[1..][..n - 1];
      var front, middle, last := Entry(bs[0]), Entries(bs[1..][..n - 1]), Entry(bs[n]);
      assert front + middle + last == front + (middle + last);
    }
  }

  lemma EntriesLast(bs: seq<ScheduledAgent>)
    ensures bs != [] ==> Entries(bs) == Entries(bs[..|bs| - 1]) + Entry(bs[|bs| - 1])
  {
  }

  lemma EntryPrefix(a: ScheduledAgent, rest: string, b: ScheduledAgent, rest': string)
    requires NUL !in a.name && NUL !in b.name
    requires Entry(a) + rest == Entry(b) + rest'
    ensures SameEntry(a, b) && rest == rest'
  {
    var x := Entry(a) + rest;
    var i, j := |a.name|, |b.name|;
    assert x[i] == NUL && x[j] == NUL;
    forall k | 0 <= k < i
      ensures x[k] != NUL
    {
      assert x[k] == a.name[k];
    }
    forall k | 0 <= k < j
      ensures x[k] != NUL
    {
      assert x[k] == b.name[k];
    }
    assert a.name == x[..i] == b.name;
    assert x[i + 1] == (if a.enabled then '1' else '0') && x[i + 1] == (if b.enabled then '1' else '0');
    assert x[i + 2] == ('0' as int + Min9(a.failures)) as char && x[i + 2] == ('0' as int + Min9(b.failures)) as char;
    assert rest == x[i + 4..] == rest';
  }

  lemma EntriesEmpty(bs: seq<ScheduledAgent>)
    ensures Entries(bs) == "" <==> bs == []
  {
    if bs != [] {
      EntriesFront(bs);
    }
  }

  /** When no name contains NUL, equal signatures mean the same names, the same enabled flags and the
      same capped counts, entry by entry, and nothing more. */
  lemma {:induction false} EntriesIdentify(bs: seq<ScheduledAgent>, cs: seq<ScheduledAgent>)
    requires CleanNames(bs) && CleanNames(cs)
    ensures Entries(bs) == Entries(cs) <==> SameEntries(bs, cs)
  {
    hide Entry, Entries;
    EntriesEmpty(bs);
    EntriesEmpty(cs);
    if bs != [] && cs != [] {
      EntriesFront(bs);
      EntriesFront(cs);
      assert bs[0] in bs && cs[0] in cs;
      assert forall a | a in bs[1..] :: a in bs;
      assert forall a | a in cs[1..] :: a in cs;
      EntriesIdentify(bs[1..], cs[1..]);
      TailEntries(bs, cs);
      if Entries(bs) == Entries(cs) {
        EntryPrefix(bs[0], Entries(bs[1..]), cs[0], Entries(cs[1..]));
      } else if SameEntry(bs[0], cs[0]) {
        SameEntryText(bs[0], cs[0]);
      }
    }
  }

  lemma TailEntries(bs: seq<ScheduledAgent>, cs: seq<ScheduledAgent>)
    ensures bs != [] && cs != [] ==>
              (SameEntries(bs, cs) <==> SameEntry(bs[0], cs[0]) && SameEntries(bs[1..], cs[1..]))
  {
    hide SameEntry;
    if bs != [] && cs != [] && SameEntry(bs[0], cs[0]) && SameEntries(bs[1..], cs[1..]) {
      forall i | 0 <= i < |bs|
        ensures SameEntry(bs[i], cs[i])
      {
        if i > 0 {
          assert bs[1..][i - 1] == bs[i] && cs[1..][i - 1] == cs[i];
        }
      }
    }
  }

  lemma SameEntryText(a: ScheduledAgent, b: ScheduledAgent)
    ensures SameEntry(a, b) ==> Entry(a) == Entry(b)
  {
  }

  lemma SignaturesIdentify(before: seq<ScheduledAgent>, after: seq<ScheduledAgent>)
    requires CleanNames(before) && CleanNames(after)
    ensures Signature(before) == Signature(after) <==> SameEntries(Broken(before), Broken(after))
  {
    hide Entries, SameEntries, Broken;
    BrokenAreAgents(before);
    BrokenAreAgents(after);
    EntriesIdentify(Broken(before), Broken(after));
  }

  // ----- where signature and readout part -----

  /** Of two fetches with one signature the readouts agree at every enabled agent whose digit is '9'. */
  ghost predicate NinesAgree(bs: seq<ScheduledAgent>, cs: seq<ScheduledAgent>) {
    |bs| == |cs| && forall i :: 0 <= i < |bs| && bs[i].enabled && Min9(bs[i].failures) == 9 ==> bs[i].failures == cs[i].failures
  }

  /** Two fetches with one signature, of which only the first was sent: the client is right exactly when
      they agree at every enabled agent whose digit is '9'. */
  lemma StaleExactly(before: seq<ScheduledAgent>, after: seq<ScheduledAgent>)
    requires CleanNames(before) && CleanNames(after) && Signature(before) == Signature(after)
    ensures Readout(before) == Readout(after) <==> NinesAgree(Broken(before), Broken(after))
  {
    hide Broken, Signature;
    SignaturesIdentify(before, after);
    var bs, cs := Broken(before), Broken(after);
    forall i | 0 <= i < |bs|
      ensures BadgeOf(bs[i]) == BadgeOf(cs[i]) <==>
              (bs[i].enabled && Min9(bs[i].failures) == 9 ==> bs[i].failures == cs[i].failures)
    {
      assert SameEntry(bs[i], cs[i]);
    }
    if Readout(before) == Readout(after) {
      forall i | 0 <= i < |bs|
        ensures BadgeOf(bs[i]) == BadgeOf(cs[i])
      {
        assert Each(bs, BadgeOf)[i] == Each(cs, BadgeOf)[i];
      }
    }
  }

  ghost predicate DisabledCountsAgree(bs: seq<ScheduledAgent>, cs: seq<ScheduledAgent>) {
    |bs| == |cs| && forall i :: 0 <= i < |bs| && !bs[i].enabled ==> Min9(bs[i].failures) == Min9(cs[i].failures)
  }

  /** Two fetches with one readout have one signature exactly when the capped counts of their disabled
      agents agree; otherwise an unchanged readout is sent again. */
  lemma ResentExactly(before: seq<ScheduledAgent>, after: seq<ScheduledAgent>)
    requires CleanNames(before) && CleanNames(after) && Readout(before) == Readout(after)
    ensures Signature(before) == Signature(after) <==> DisabledCountsAgree(Broken(before), Broken(after))
  {
    hide Broken, Signature;
    SignaturesIdentify(before, after);
    var bs, cs := Broken(before), Broken(after);
    assert |bs| == |cs|;
    forall i | 0 <= i < |bs|
      ensures SameEntry(bs[i], cs[i]) <==> (!bs[i].enabled ==> Min9(bs[i].failures) == Min9(cs[i].failures))
    {
      assert Each(bs, BadgeOf)[i] == Each(cs, BadgeOf)[i];
    }
  }

  /** An enabled agent that fails for the tenth time is not reported: the readout stays at nine. */
  lemma TenthFailureUnseen(name: string)
    ensures var before := [ScheduledAgent(name, "reaction", true, 9)];
            var after := [ScheduledAgent(name, "reaction", true, 10)];
            Signature(before) == Signature(after) && Readout(before) != Readout(after)
  {
    var a, b := ScheduledAgent(name, "reaction", true, 9), ScheduledAgent(name, "reaction", true, 10);
    OneBroken(a);
    OneBroken(b);
    SameEntryText(a, b);
    assert Each([a], BadgeOf)[0] == Failing(name, 9) && Each([b], BadgeOf)[0] == Failing(name, 10);
  }

  /** A disabled agent that fails again is: the same readout is sent once more. */
  lemma DisabledFailureResent(name: string)
    requires NUL !in name
    ensures var before := [ScheduledAgent(name, "reaction", false, 3)];
            var after := [ScheduledAgent(name, "reaction", false, 4)];
            Signature(before) != Signature(after) && Readout(before) == Readout(after)
  {
    var a, b := ScheduledAgent(name, "reaction", false, 3), ScheduledAgent(name, "reaction", false, 4);
    OneBroken(a);
    OneBroken(b);
    SignaturesIdentify([a], [b]);
    assert !SameEntry([a][0], [b][0]);
  }

  lemma OneBroken(a: ScheduledAgent)
    ensures Unhealthy(a) ==> Broken([a]) == [a] && Entries([a]) == Entry(a)
  {
    hide Entry;
    assert [a][..0] == [];
  }

  /** A NUL in a name defeats the signature altogether: one agent can carry the signature of two. */
  lemma NulNamesCollide()
    ensures var a, b := ScheduledAgent("a", "reaction", false, 1), ScheduledAgent("b", "reaction", false, 1);
            var c := ScheduledAgent("a" + [NUL] + "01" + [NUL] + "b", "reaction", false, 1);
            Signature([a, b]) == Signature([c]) && Readout([a, b]) != Readout([c])
  {
    var a, b := ScheduledAgent("a", "reaction", false, 1), ScheduledAgent("b", "reaction", false, 1);
    var c := ScheduledAgent("a" + [NUL] + "01" + [NUL] + "b", "reaction", false, 1);
    OneBroken(a);
    OneBroken(c);
    assert [a, b][..1] == [a];
    assert Broken([a, b]) == [a, b];
    assert Entry(a) + Entry(b) == Entry(c);
    assert |Readout([a, b])| == 2 && |Readout([c])| == 1;
  }

  // ----- one connection -----

  /** The per-connection state of the readout. `sent` is the fetch whose readout the client shows. */
  class HealthState {
    var healthSent: bool
    var lastHealth: string
    ghost var sent: Option<seq<ScheduledAgent>>

    ghost predicate Valid()
      reads this
    {
      healthSent == sent.Some? && (sent.Some? ==> CleanNames(sent.value) && lastHealth == Signature(sent.value))
    }

    /** What the client shows: nothing of this connection yet, or a readout. */
    ghost function Client(): Option<seq<Badge>>
      reads this
    {
      if sent.Some? then Some(Readout(sent.value)) else None
    }

    constructor ()
      ensures Valid() && sent == None
    {
      healthSent, lastHealth, sent := false, "", None;
    }

    /** pushHealth. A failed fetch (None) changes nothing and sends nothing. A successful one is sent
        unless its signature is that of the fetch on the client; the client then shows it unless an
        enabled agent went from one count of nine or more to another. A frame is wasted exactly when only
        counts of disabled agents changed. */
    method PushHealth(fetched: Option<seq<ScheduledAgent>>) returns (frame: bool)
      requires Valid() && (fetched.Some? ==> CleanNames(fetched.value))
      modifies this
      ensures Valid() && (fetched.Some? ==> sent.Some?)
      ensures fetched.None? ==> !frame && sent == old(sent) && lastHealth == old(lastHealth)
      ensures frame ==> sent == fetched
      ensures !frame ==> sent == old(sent)
      ensures fetched.Some? ==>
                (Client() == Some(Readout(fetched.value)) <==> frame || NinesAgree(Broken(sent.value), Broken(fetched.value)))
      ensures old(sent).Some? && fetched.Some? && Readout(old(sent).value) == Readout(fetched.value) ==>
                (frame <==> !DisabledCountsAgree(Broken(old(sent).value), Broken(fetched.value)))
    {
      hide Signature, Readout, NinesAgree, DisabledCountsAgree, Broken;
      if fetched.None? {
        return false;
      }
      var sig := BoardHealthSignature(fetched.value);
      if sent.Some? && Readout(sent.value) == Readout(fetched.value) {
        ResentExactly(sent.value, fetched.value);
      }
      if healthSent && sig == lastHealth {
        StaleExactly(sent.value, fetched.value);
        return false;
      }
      healthSent := true;
      lastHealth := sig;
      sent := fetched;
      return true;
    }
  }

  // ----- the text of a badge -----

  /** The text the template draws on a badge; `Versions.Format` is strconv.Itoa. */
  function Label(b: Badge): string {
    match b
    case Disabled(name) => name + " \U{B7} disabled"
    case Failing(name, count) => name + " \U{B7} " + Versions.Format(count) + if count == 1 then " failure" else " failures"
  }

  /** The text tells the badge, so two readouts look alike only if they are the same. */
  lemma LabelsTell(b: Badge, c: Badge)
    requires Label(b) == Label(c)
    ensures b == c
  {
    var s, t := Label(b), Label(c);
    assert s[|s| - 1] == t[|t| - 1];
    if b.Disabled? {
      DropTail(b.name, c.name, " \U{B7} disabled");
    } else if b.count == 1 || c.count == 1 {
      assert Versions.Format(1) == "1";
      assert Label(b) == b.name + " \U{B7} 1 failure" && Label(c) == c.name + " \U{B7} 1 failure";
      DropTail(b.name, c.name, " \U{B7} 1 failure");
    } else {
      ManyFailures(b.name, b.count, c.name, c.count);
    }
  }

  lemma ManyFailures(a: string, m: nat, b: string, n: nat)
    requires m != 1 && n != 1 && Label(Failing(a, m)) == Label(Failing(b, n))
    ensures a == b && m == n
  {
    hide Versions.Format;
    var d, e := Versions.Format(m), Versions.Format(n);
    var x, y := a + " \U{B7}", b + " \U{B7}";
    assert Label(Failing(a, m)) == (x + " " + d) + " failures" && Label(Failing(b, n)) == (y + " " + e) + " failures";
    DropTail(x + " " + d, y + " " + e, " failures");
    Versions.FormatReads(m);
    Versions.FormatReads(n);
    LastSpace(x, d, y, e);
    DropTail(a, b, " \U{B7}");
  }
}
