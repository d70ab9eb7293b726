/** One delivery worker run step by step: deliverGroup, deliver and processBatch of internal/relay/deliver.go. */
module Relay {
  import opened Routing
  import opened QueueTable
  import opened Books
  import opened Storage
  import Protocol
  import Mirror
  import Safety
  import SoloWorker

  /** The answer to one step of the conversation with a mail exchanger. */
  datatype Reply = Accepted | Refused(code: int, text: string) | Broken(text: string)

  predicate IsPermanent(r: Reply) {
    r.Refused? && r.code >= 500 && r.code != 421
  }

  predicate IsTransient(r: Reply) {
    !r.Accepted? && !IsPermanent(r)
  }

  function Reason(r: Reply): string {
    if r.Accepted? then "" else r.text
  }

  /** What the outside world answers while one domain is contacted. */
  datatype Dialogue = Dialogue(
    resolve: Reply, connect: Reply, hello: Reply, mail: Reply, rcpt: nat -> Reply, data: Reply, body: Reply)

  /** The recipients among the first `n` that the exchanger took. */
  function Taken(d: Dialogue, rcpts: seq<Addr>, n: nat): (r: seq<Addr>)
    requires n <= |rcpts|
    ensures forall a :: a in r <==> exists i :: 0 <= i < n && rcpts[i] == a && d.rcpt(i).Accepted?
  {
    if n == 0 then [] else Taken(d, rcpts, n - 1) + if d.rcpt(n - 1).Accepted? then [rcpts[n - 1]] else []
  }

  /** Everyone is refused before any recipient is named. */
  predicate RefusedEarly(d: Dialogue) {
    IsPermanent(d.resolve) ||
    (d.resolve.Accepted? && d.connect.Accepted? && d.hello.Accepted? && IsPermanent(d.mail))
  }

  /** The call ends in a retry error; note that any refusal of the DATA command itself is one. */
  predicate GroupFails(d: Dialogue, rcpts: seq<Addr>) {
    || IsTransient(d.resolve)
    || (d.resolve.Accepted? && (!d.connect.Accepted? || !d.hello.Accepted? || IsTransient(d.mail)))
    || (d.resolve.Accepted? && d.mail.Accepted? &&
        ((exists i :: 0 <= i < |rcpts| && IsTransient(d.rcpt(i))) ||
         (Taken(d, rcpts, |rcpts|) != [] && (!d.data.Accepted? || IsTransient(d.body)))))
  }

  /** Those of a group that a call without retry error delivers to. */
  function Delivers(d: Dialogue, rcpts: seq<Addr>): set<Addr> {
    if RefusedEarly(d) || !d.body.Accepted? then {} else Elements(Taken(d, rcpts, |rcpts|))
  }

  /** Those of a message that the exchangers of the given domains took. */
  function DeliveredBy(to: seq<Addr>, domains: seq<string>, talk: string -> Dialogue): set<Addr> {
    if domains == [] then {}
    else
      var n := |domains| - 1;
      DeliveredBy(to, domains[..n], talk) + Delivers(talk(domains[n]), Group(to, domains[n]))
  }

  function RejectAll(rcpts: seq<Addr>, why: string): (perm: map<Addr, string>)
    ensures perm.Keys == Elements(rcpts)
  {
    map a | a in rcpts :: why
  }

  // ---- Answers by their codes ----

  /** A broken connection, a code below 500, or 421: the sender shall try again. */
  predicate AsksAgain(r: Reply) {
    r.Broken? || (r.Refused? && (r.code < 500 || r.code == 421))
  }

  /** A code from 500 on other than 421: the sender shall not try again. */
  predicate RefusesForGood(r: Reply) {
    r.Refused? && r.code >= 500 && r.code != 421
  }

  ghost predicate SomeAsksAgain(rcpts: seq<Addr>, d: Dialogue) {
    exists i :: 0 <= i < |rcpts| && AsksAgain(d.rcpt(i))
  }

  ghost predicate SomeTaken(rcpts: seq<Addr>, d: Dialogue) {
    exists i :: 0 <= i < |rcpts| && d.rcpt(i).Accepted?
  }

  /** Recipient `a` is refused for good by the answer to one of its RCPT commands. */
  ghost predicate RefusedRcpt(rcpts: seq<Addr>, d: Dialogue, a: Addr) {
    exists i :: 0 <= i < |rcpts| && rcpts[i] == a && RefusesForGood(d.rcpt(i))
  }

  /** That answer, with its text. */
  ghost predicate RefusedWith(rcpts: seq<Addr>, d: Dialogue, a: Addr, why: string) {
    exists i :: 0 <= i < |rcpts| && rcpts[i] == a && RefusesForGood(d.rcpt(i)) && d.rcpt(i).text == why
  }

  ghost predicate TakenRcpt(rcpts: seq<Addr>, d: Dialogue, a: Addr) {
    exists i :: 0 <= i < |rcpts| && rcpts[i] == a && d.rcpt(i).Accepted?
  }

  ghost predicate AllRefused(rcpts: seq<Addr>, delivered: seq<Addr>, perm: map<Addr, string>, failed: bool) {
    !failed && delivered == [] && perm.Keys == Elements(rcpts)
  }

  /** What one conversation comes to, answer by answer. */
  ghost predicate ByCodes(rcpts: seq<Addr>, d: Dialogue, delivered: seq<Addr>, perm: map<Addr, string>, failed: bool) {
    if AsksAgain(d.resolve) then failed
    else if RefusesForGood(d.resolve) then AllRefused(rcpts, delivered, perm, failed)
    else if !d.connect.Accepted? || !d.hello.Accepted? then failed
    else if AsksAgain(d.mail) then failed
    else if RefusesForGood(d.mail) then AllRefused(rcpts, delivered, perm, failed)
    else NamedByCodes(rcpts, d, delivered, perm, failed)
  }

  /** What the answers to RCPT and DATA and the one to the body come to. */
  ghost predicate NamedByCodes(
    rcpts: seq<Addr>, d: Dialogue, delivered: seq<Addr>, perm: map<Addr, string>, failed: bool)
  {
    if SomeAsksAgain(rcpts, d) then failed
    else if !SomeTaken(rcpts, d) then AllRefused(rcpts, delivered, perm, failed)
    else if !d.data.Accepted? || AsksAgain(d.body) then failed
    else if RefusesForGood(d.body) then AllRefused(rcpts, delivered, perm, failed)
    else
      && !failed && (forall a :: a in delivered <==> TakenRcpt(rcpts, d, a))
      && (forall a :: a in perm <==> RefusedRcpt(rcpts, d, a))
  }

  /** The reason kept for a rejected recipient is the text of the answer that rejected it. */
  ghost predicate Explained(rcpts: seq<Addr>, d: Dialogue, perm: map<Addr, string>) {
    forall a :: a in perm ==>
      if RefusesForGood(d.resolve) then perm[a] == d.resolve.text
      else if RefusesForGood(d.mail) then perm[a] == d.mail.text
      else RefusedWith(rcpts, d, a, perm[a]) ||
           (TakenRcpt(rcpts, d, a) && RefusesForGood(d.body) && perm[a] == d.body.text)
  }

  /** The RCPT commands: who is taken and who is refused for good, unless one of the answers asks for a retry. */
  method NameRecipients(rcpts: seq<Addr>, d: Dialogue) returns (taken: seq<Addr>, perm: map<Addr, string>, failed: bool)
    ensures failed <==> exists i :: 0 <= i < |rcpts| && IsTransient(d.rcpt(i))
    ensures !failed ==> taken == Taken(d, rcpts, |rcpts|)
    ensures !failed ==> Elements(taken) + perm.Keys == Elements(rcpts)
    ensures Distinct(rcpts) ==> Elements(taken) !! perm.Keys
    ensures failed <==> SomeAsksAgain(rcpts, d)
    ensures !failed ==> (taken != [] <==> SomeTaken(rcpts, d))
    ensures !failed ==> forall a :: a in taken <==> TakenRcpt(rcpts, d, a)
    ensures !failed ==> forall a :: a in perm <==> RefusedRcpt(rcpts, d, a)
    ensures !RefusesForGood(d.resolve) && !RefusesForGood(d.mail) ==> Explained(rcpts, d, perm)
  {
    taken, perm, failed := [], map[], false;
    for i := 0 to |rcpts|
      invariant taken == Taken(d, rcpts, i)
      invariant forall j :: 0 <= j < i ==> !IsTransient(d.rcpt(j))
      invariant forall a :: a in perm <==> exists j :: 0 <= j < i && rcpts[j] == a && IsPermanent(d.rcpt(j))
      invariant forall a :: a in perm ==> RefusedWith(rcpts, d, a, perm[a])
    {
      var r := d.rcpt(i);
      if IsTransient(r) {
        assert AsksAgain(d.rcpt(i));
        return taken, perm, true;
      }
      if r.Accepted? {
        taken := taken + [rcpts[i]];
      } else {
        perm := perm[rcpts[i] := Reason(r)];
        assert RefusesForGood(d.rcpt(i)) && RefusedWith(rcpts, d, rcpts[i], Reason(r));
      }
    }
    forall a | a in rcpts ensures a in taken || a in perm {
      var i :| 0 <= i < |rcpts| && rcpts[i] == a;
      assert d.rcpt(i).Accepted? || IsPermanent(d.rcpt(i));
    }
    TakenByCodes(rcpts, d, taken, perm);
  }

  lemma TakenByCodes(rcpts: seq<Addr>, d: Dialogue, taken: seq<Addr>, perm: map<Addr, string>)
    requires taken == Taken(d, rcpts, |rcpts|) && forall j :: 0 <= j < |rcpts| ==> !IsTransient(d.rcpt(j))
    requires forall a :: a in perm <==> exists j :: 0 <= j < |rcpts| && rcpts[j] == a && IsPermanent(d.rcpt(j))
    ensures !SomeAsksAgain(rcpts, d) && (taken != [] <==> SomeTaken(rcpts, d))
    ensures forall a :: a in taken <==> TakenRcpt(rcpts, d, a)
    ensures forall a :: a in perm <==> RefusedRcpt(rcpts, d, a)
  {
    assert taken != [] ==> taken[0] in taken;
    if SomeTaken(rcpts, d) {
      var i :| 0 <= i < |rcpts| && d.rcpt(i).Accepted?;
      assert rcpts[i] in taken;
    }
  }

  lemma BodyExplained(rcpts: seq<Addr>, d: Dialogue, taken: seq<Addr>, perm: map<Addr, string>)
    requires !RefusesForGood(d.resolve) && !RefusesForGood(d.mail) && RefusesForGood(d.body)
    requires Explained(rcpts, d, perm) && forall a :: a in taken ==> TakenRcpt(rcpts, d, a)
    requires Elements(taken) + perm.Keys == Elements(rcpts)
    ensures (perm + RejectAll(taken, d.body.text)).Keys == Elements(rcpts)
    ensures Explained(rcpts, d, perm + RejectAll(taken, d.body.text))
  {
  }

  /** The part of a conversation from the first RCPT command on. */
  method Transmit(rcpts: seq<Addr>, d: Dialogue)
    returns (delivered: seq<Addr>, perm: map<Addr, string>, failed: bool)
    requires d.resolve.Accepted? && d.connect.Accepted? && d.hello.Accepted? && d.mail.Accepted?
    ensures failed <==> GroupFails(d, rcpts)
    ensures failed ==> delivered == []
    ensures !failed ==> Elements(delivered) + perm.Keys == Elements(rcpts)
    ensures !failed ==> delivered == (if !d.body.Accepted? then [] else Taken(d, rcpts, |rcpts|))
    ensures Distinct(rcpts) ==> Elements(delivered) !! perm.Keys
    ensures NamedByCodes(rcpts, d, delivered, perm, failed)
    ensures !failed ==> Explained(rcpts, d, perm)
  {
    delivered := [];
    var taken;
    taken, perm, failed := NameRecipients(rcpts, d);
    if failed || taken == [] {
      return;
    }
    if !d.data.Accepted? || IsTransient(d.body) {
      failed := true;
      return;
    }
    if IsPermanent(d.body) {
      BodyExplained(rcpts, d, taken, perm);
      perm := perm + RejectAll(taken, Reason(d.body));
      return;
    }
    delivered := taken;
  }

  /**
   One conversation. Without a retry error every recipient is reported, delivered or permanently rejected;
   with one nothing is delivered.
   */
  method DeliverGroup(rcpts: seq<Addr>, d: Dialogue)
    returns (delivered: seq<Addr>, perm: map<Addr, string>, failed: bool)
    ensures failed <==> GroupFails(d, rcpts)
    ensures failed ==> delivered == []
    ensures !failed ==> Elements(delivered) + perm.Keys == Elements(rcpts)
    ensures !failed ==> delivered == (if RefusedEarly(d) || !d.body.Accepted? then [] else Taken(d, rcpts, |rcpts|))
    ensures !failed ==> Elements(delivered) == Delivers(d, rcpts)
    ensures Distinct(rcpts) ==> Elements(delivered) !! perm.Keys
    ensures ByCodes(rcpts, d, delivered, perm, failed)
    ensures !failed ==> Explained(rcpts, d, perm)
  {
    delivered, perm, failed := [], map[], false;
    if !d.resolve.Accepted? {
      failed := !IsPermanent(d.resolve);
      if !failed { perm := RejectAll(rcpts, Reason(d.resolve)); }
      return;
    }
    if !d.connect.Accepted? || !d.hello.Accepted? {
      failed := true;
      return;
    }
    if !d.mail.Accepted? {
      failed := !IsPermanent(d.mail);
      if !failed { perm := RejectAll(rcpts, Reason(d.mail)); }
      return;
    }
    delivered, perm, failed := Transmit(rcpts, d);
  }

  /** What deliver puts back in the list: members of the group nobody reported on, in any order. */
  method PutBack(keep: seq<Addr>, group: seq<Addr>, delivered: seq<Addr>, perm: map<Addr, string>)
    returns (remaining: seq<Addr>)
    ensures keep <= remaining
    ensures Elements(remaining[|keep|..]) == Elements(group) - Elements(delivered) - perm.Keys
    ensures Distinct(remaining[|keep|..])
  {
    var left := Elements(group);
    for i := 0 to |delivered|
      invariant left == Elements(group) - Elements(delivered[..i])
    {
      assert delivered[..i + 1] == delivered[..i] + [delivered[i]];
      left := left - {delivered[i]};
    }
    assert delivered[..|delivered|] == delivered;
    left := left - perm.Keys;
    ghost var all := left;
    var back: seq<Addr> := [];
    while left != {}
      invariant Elements(back) + left == all && Elements(back) !! left && Distinct(back)
      decreases left
    {
      var a :| a in left;
      left := left - {a};
      back := back + [a];
    }
    remaining := keep + back;
    assert remaining[|keep|..] == back;
  }

  lemma FirstElement(addrs: seq<Addr>)
    ensures addrs == [] || addrs[0] in Elements(addrs)
  {
  }

  lemma NothingPutBack(keep: seq<Addr>, remaining: seq<Addr>)
    requires keep <= remaining && Elements(remaining[|keep|..]) == {}
    ensures remaining == keep
  {
    FirstElement(remaining[|keep|..]);
  }

  lemma DistinctAsSet(addrs: seq<Addr>)
    requires Distinct(addrs)
    ensures multiset(addrs) == multiset(Elements(addrs))
  {
    if addrs != [] {
      var n := |addrs| - 1;
      DistinctAsSet(addrs[..n]);
      LastApart(addrs);
      assert Elements(addrs) == Elements(addrs[..n]) + {addrs[n]};
    }
  }

  /** The recipients of an attempt so far: reported ones and remaining ones. */
  ghost predicate Accounted(all: seq<Addr>, delivered: set<Addr>, rejected: set<Addr>, rest: seq<Addr>) {
    && Elements(all) == delivered + rejected + Elements(rest) && (delivered + rejected) !! Elements(rest)
    && (Distinct(all) ==> Distinct(rest) && delivered !! rejected)
  }

  /** For a list without duplicates the account is one of occurrences, not only of members. */
  lemma AccountedAsMultiset(all: seq<Addr>, delivered: set<Addr>, rejected: set<Addr>, rest: seq<Addr>)
    requires Accounted(all, delivered, rejected, rest) && Distinct(all)
    ensures multiset(all) == multiset(delivered) + multiset(rejected) + multiset(rest)
  {
    DistinctAsSet(all);
    DistinctAsSet(rest);
  }

  lemma GroupAccounted(all: seq<Addr>, delivered: set<Addr>, rejected: set<Addr>, rest: seq<Addr>, domain: string,
                       done: set<Addr>, perm: set<Addr>)
    requires Accounted(all, delivered, rejected, rest) && done + perm == Elements(Group(rest, domain))
    requires Distinct(Group(rest, domain)) ==> done !! perm
    ensures Accounted(all, delivered + done, rejected + perm, Rest(rest, domain))
  {
    if Distinct(all) { SplitDistinct(rest, domain); }
    assert Elements(rest) == Elements(Group(rest, domain)) + Elements(Rest(rest, domain));
    assert Elements(Group(rest, domain)) !! Elements(Rest(rest, domain));
  }

  lemma FailureAccounted(all: seq<Addr>, delivered: set<Addr>, rejected: set<Addr>, rest: seq<Addr>, domain: string)
    requires Accounted(all, delivered, rejected, rest)
    ensures Accounted(all, delivered, rejected, Rest(rest, domain) + Group(rest, domain))
    ensures Elements(Rest(rest, domain) + Group(rest, domain)) == Elements(rest)
  {
    if Distinct(all) { SplitDistinct(rest, domain); }
    RegroupKeeps(rest, domain);
  }

  /** Only the row of `id` differs, and it is still queued with the same number of attempts. */
  ghost predicate OnlyProgress(before: Table, rows: Table, id: Id) {
    && id in QueuedIds(before) && id in QueuedIds(rows) && rows == before[id := rows[id]]
    && rows[id].attempts == before[id].attempts
  }

  lemma PersistIsProgress(before: Table, rows: Table, m: Message)
    requires OnlyProgress(before, rows, m.id) && m.attempts == before[m.id].attempts
    ensures OnlyProgress(before, PersistRow(rows, m), m.id)
    ensures m.to != [] ==> PersistRow(rows, m)[m.id].to == m.to && PersistRow(rows, m)[m.id].permanent == m.permanent
  {
    var rows' := PersistRow(rows, m);
    assert rows' == before[m.id := rows'[m.id]];
  }

  /** Every domain once. */
  ghost predicate Each(domains: seq<string>) {
    forall i, j :: 0 <= i < j < |domains| ==> domains[i] != domains[j]
  }

  /** The domains contacted so far are different, and no remaining recipient belongs to one of them. */
  ghost predicate Behind(domains: seq<string>, rest: seq<Addr>) {
    && Each(domains) && (forall a :: a in rest ==> DomainOf(a) !in domains)
  }

  lemma NextBehind(domains: seq<string>, rest: seq<Addr>)
    requires Behind(domains, rest) && rest != []
    ensures Behind(domains + [DomainOf(rest[0])], Rest(rest, DomainOf(rest[0])))
  {
    assert rest[0] in rest;
  }

  /** What an attempt has reported and whom it has contacted. */
  datatype Report = Report(delivered: set<Addr>, rejected: set<Addr>, domains: seq<string>)

  lemma FlagsKept(r: Report, any: bool, permCount: nat, done: seq<Addr>, perm: map<Addr, string>)
    requires (any <==> r.delivered != {}) && (permCount > 0 <==> r.rejected != {})
    ensures any || |done| > 0 <==> r.delivered + Elements(done) != {}
    ensures permCount + |perm| > 0 <==> r.rejected + perm.Keys != {}
  {
    assert |done| > 0 ==> done[0] in Elements(done);
    assert |perm| > 0 <==> |perm.Keys| > 0;
  }

  ghost predicate Contacted(r: Report) {
    forall a :: a in r.delivered + r.rejected ==> DomainOf(a) in r.domains
  }

  lemma TurnContacted(r: Report, group: seq<Addr>, domain: string, done: set<Addr>, perm: set<Addr>)
    requires Contacted(r) && done + perm == Elements(Group(group, domain))
    ensures Contacted(Report(r.delivered + done, r.rejected + perm, r.domains + [domain]))
  {
    forall a | a in r.delivered + done + r.rejected + perm ensures DomainOf(a) in r.domains + [domain] {
      assert a in done + perm ==> a in Group(group, domain);
    }
  }

  /**
   After the last domain the row still names its recipients, and their reasons are not in it, because nothing is
   persisted for an empty list.
   */
  ghost predicate LastGroupKept(m: Message, row: Row, r: Report) {
    r.domains != [] ==>
      var group := Elements(Group(m.to, r.domains[|r.domains| - 1]));
      Elements(row.to) == group && row.permanent.Keys == m.permanent.Keys + (r.rejected - group)
  }

  lemma LastGroup(all: seq<Addr>, rest: seq<Addr>, r: Report)
    requires rest != [] && Accounted(all, r.delivered, r.rejected, rest) && Behind(r.domains, rest) && Contacted(r)
    requires Rest(rest, DomainOf(rest[0])) == []
    ensures Elements(rest) == Elements(Group(all, DomainOf(rest[0])))
  {
    var d := DomainOf(rest[0]);
    assert rest[0] in rest;
    forall a | a in rest ensures a in Group(all, d) {
      assert a !in Rest(rest, d) && a in Elements(rest) && a in Elements(all);
    }
    forall a | a in Group(all, d) ensures a in rest {
      assert a in Elements(all) && a !in r.delivered + r.rejected;
    }
  }

  /** The recipients rejected before the last domain are the rejected ones outside it. */
  lemma LastReasons(r: Report, group: seq<Addr>, domain: string, perm: set<Addr>)
    requires Contacted(r) && domain !in r.domains && (forall a :: a in group ==> DomainOf(a) == domain)
    requires perm <= Elements(group)
    ensures (r.rejected + perm) - Elements(group) == r.rejected
  {
    forall a | a in r.rejected ensures a !in Elements(group) {
      assert a in r.delivered + r.rejected;
    }
  }

  /** The groups of domains not yet contacted are those of the whole message. */
  ghost predicate SameGroups(all: seq<Addr>, rest: seq<Addr>, domains: seq<string>) {
    forall d :: d !in domains ==> Group(rest, d) == Group(all, d)
  }

  /** The reported deliveries are those of the exchangers contacted so far, none of which asked for a retry. */
  ghost predicate Answered(all: seq<Addr>, rest: seq<Addr>, r: Report, talk: string -> Dialogue) {
    && SameGroups(all, rest, r.domains) && r.delivered == DeliveredBy(all, r.domains, talk)
    && forall d :: d in r.domains ==> !GroupFails(talk(d), Group(all, d))
  }

  /** Likewise at the end of the loop; after a failure, for all domains but the last, which asked for a retry. */
  ghost predicate AnsweredAll(all: seq<Addr>, r: Report, talk: string -> Dialogue, failed: bool) {
    && (failed ==> r.domains != [])
    && var n := if failed then |r.domains| - 1 else |r.domains|;
       && r.delivered == DeliveredBy(all, r.domains[..n], talk)
       && forall i :: 0 <= i < |r.domains| ==> (GroupFails(talk(r.domains[i]), Group(all, r.domains[i])) <==> i == n)
  }

  lemma AnswersEnd(all: seq<Addr>, rest: seq<Addr>, r: Report, talk: string -> Dialogue)
    requires Answered(all, rest, r, talk)
    ensures AnsweredAll(all, r, talk, false)
  {
    assert r.domains[..|r.domains|] == r.domains;
  }

  lemma AnswersFail(all: seq<Addr>, rest: seq<Addr>, r: Report, talk: string -> Dialogue, domain: string)
    requires Answered(all, rest, r, talk) && domain !in r.domains && GroupFails(talk(domain), Group(rest, domain))
    ensures AnsweredAll(all, r.(domains := r.domains + [domain]), talk, true)
  {
    assert (r.domains + [domain])[..|r.domains|] == r.domains;
  }

  lemma AnswersGoOn(all: seq<Addr>, rest: seq<Addr>, r: Report, r': Report, talk: string -> Dialogue, domain: string)
    requires Answered(all, rest, r, talk) && domain !in r.domains && !GroupFails(talk(domain), Group(rest, domain))
    requires r'.delivered == r.delivered + Delivers(talk(domain), Group(rest, domain))
    requires r'.domains == r.domains + [domain]
    ensures Answered(all, Rest(rest, domain), r', talk)
  {
    assert Group(rest, domain) == Group(all, domain);
    assert r'.domains[..|r.domains|] == r.domains;
    forall d | d !in r'.domains ensures Group(Rest(rest, domain), d) == Group(all, d) {
      OtherGroups(rest, domain, d);
      assert d !in r.domains;
    }
  }

  /** The accounts, contacts and flags of an attempt between two domains. */
  ghost predicate Counted(all: seq<Addr>, rest: seq<Addr>, r: Report, any: bool, permCount: nat) {
    && Accounted(all, r.delivered, r.rejected, rest) && Behind(r.domains, rest)
    && Contacted(r)
    && (any <==> r.delivered != {}) && (permCount > 0 <==> r.rejected != {})
  }

  /** The stored row of an attempt between two domains. */
  ghost predicate Recorded(before: Table, rows: Table, m: Message, m': Message) {
    && OnlyProgress(before, rows, m.id)
    && m'.id == m.id && m'.attempts == m.attempts && m.attempts == before[m.id].attempts
    && (m'.to != [] ==> Elements(rows[m.id].to) == Elements(m'.to) && rows[m.id].permanent == m'.permanent)
  }

  /** A reason is noted for exactly the recipients rejected in this attempt or an earlier one. */
  ghost predicate Noted(m: Message, m': Message, r: Report) {
    m'.permanent.Keys == m.permanent.Keys + r.rejected
  }

  lemma TurnCounted(all: seq<Addr>, rest: seq<Addr>, r: Report, any: bool, permCount: nat,
                    done: seq<Addr>, perm: map<Addr, string>)
    requires rest != [] && Counted(all, rest, r, any, permCount)
    requires Elements(done) + perm.Keys == Elements(Group(rest, DomainOf(rest[0])))
    requires Distinct(Group(rest, DomainOf(rest[0]))) ==> Elements(done) !! perm.Keys
    ensures Counted(all, Rest(rest, DomainOf(rest[0])),
      Report(r.delivered + Elements(done), r.rejected + perm.Keys, r.domains + [DomainOf(rest[0])]),
      any || |done| > 0, permCount + |perm|)
  {
    NextBehind(r.domains, rest);
    TurnContacted(r, rest, DomainOf(rest[0]), Elements(done), perm.Keys);
    GroupAccounted(all, r.delivered, r.rejected, rest, DomainOf(rest[0]), Elements(done), perm.Keys);
    FlagsKept(r, any, permCount, done, perm);
  }

  lemma TurnRecorded(before: Table, rows: Table, m: Message, m': Message, next: Message)
    requires Recorded(before, rows, m, m') && next.id == m'.id && next.attempts == m'.attempts
    ensures Recorded(before, PersistRow(rows, next), m, next)
  {
    PersistIsProgress(before, rows, next);
  }

  lemma TurnNoted(m: Message, m': Message, next: Message, r: Report, r': Report, perm: map<Addr, string>)
    requires Noted(m, m', r) && next.permanent == m'.permanent + perm && r'.rejected == r.rejected + perm.Keys
    ensures Noted(m, next, r')
  {
  }

  /**
   The end of an attempt's loop: every recipient accounted for, every domain contacted at most once, the flags right,
   and only the progress of the message stored; after a failure the stored row holds exactly the remaining recipients.
   */
  ghost predicate Closed(before: Table, rows: Table, m: Message, m': Message, r: Report, any: bool, permCount: nat,
                         failed: bool)
  {
    && Accounted(m.to, r.delivered, r.rejected, m'.to)
    && Each(r.domains) && (any <==> r.delivered != {}) && (permCount > 0 <==> r.rejected != {})
    && OnlyProgress(before, rows, m.id) && m'.id == m.id && m'.attempts == m.attempts == before[m.id].attempts
    && Noted(m, m', r) && Contacted(r)
    && (if failed then m'.to != [] && Elements(rows[m.id].to) == Elements(m'.to) && rows[m.id].permanent == m'.permanent
        else m'.to == [] && LastGroupKept(m, rows[m.id], r))
  }

  /** An attempt between two domains. */
  ghost predicate Open(before: Table, rows: Table, m: Message, m': Message, r: Report, any: bool, permCount: nat) {
    && Counted(m.to, m'.to, r, any, permCount) && Recorded(before, rows, m, m') && Noted(m, m', r)
    && (m'.to == [] ==> LastGroupKept(m, rows[m.id], r))
  }

  lemma TurnFailed(before: Table, rows: Table, m: Message, m': Message, next: Message, r: Report, any: bool,
                   permCount: nat)
    requires m'.to != [] && Open(before, rows, m, m', r, any, permCount)
    requires next == m'.(to := Rest(m'.to, DomainOf(m'.to[0])) + Group(m'.to, DomainOf(m'.to[0])))
    ensures Closed(before, rows, m, next, r.(domains := r.domains + [DomainOf(m'.to[0])]), any, permCount, true)
  {
    FailureAccounted(m.to, r.delivered, r.rejected, m'.to, DomainOf(m'.to[0]));
    NextBehind(r.domains, m'.to);
    assert m'.to[0] in next.to;
  }

  lemma TurnDone(before: Table, rows: Table, m: Message, m': Message, next: Message, r: Report, r': Report,
                 any: bool, permCount: nat, done: seq<Addr>, perm: map<Addr, string>)
    requires m'.to != [] && Open(before, rows, m, m', r, any, permCount)
    requires next == m'.(to := Rest(m'.to, DomainOf(m'.to[0])), permanent := m'.permanent + perm)
    requires Elements(done) + perm.Keys == Elements(Group(m'.to, DomainOf(m'.to[0])))
    requires Distinct(Group(m'.to, DomainOf(m'.to[0]))) ==> Elements(done) !! perm.Keys
    requires r' == Report(r.delivered + Elements(done), r.rejected + perm.Keys, r.domains + [DomainOf(m'.to[0])])
    ensures Open(before, PersistRow(rows, next), m, next, r', any || |done| > 0, permCount + |perm|)
  {
    assert Counted(m.to, next.to, r', any || |done| > 0, permCount + |perm|) by {
      TurnCounted(m.to, m'.to, r, any, permCount, done, perm);
    }
    assert Recorded(before, PersistRow(rows, next), m, next) by { TurnRecorded(before, rows, m, m', next); }
    assert Noted(m, next, r') by { TurnNoted(m, m', next, r, r', perm); }
    assert next.to == [] ==> LastGroupKept(m, rows[m.id], r') by {
      if next.to == [] {
        LastGroup(m.to, m'.to, r);
        assert perm.Keys <= Elements(m'.to);
        LastReasons(r, m'.to, DomainOf(m'.to[0]), perm.Keys);
      }
    }
  }

  function IdsOf(batch: seq<Message>): set<Id> {
    set m | m in batch :: m.id
  }

  ghost predicate OncePerId(batch: seq<Message>) {
    forall i, j :: 0 <= i < j < |batch| ==> batch[i].id != batch[j].id
  }

  /** A batch holds each message once. */
  lemma {:induction false} ReadyDistinct(rows: Table, ids: seq<Id>, now: nat)
    requires forall id :: id in ids ==> id in rows
    requires forall i, j :: 0 <= i < j < |ids| ==> ids[i] != ids[j]
    ensures OncePerId(Ready(rows, ids, now))
  {
    if ids != [] {
      var n := |ids| - 1;
      var front := Ready(rows, ids[..n], now);
      ReadyDistinct(rows, ids[..n], now);
      forall i | 0 <= i < |front| ensures front[i].id != ids[n] {
        assert front[i] in front && front[i].id in ids[..n];
      }
    }
  }

  /** Other queued rows than that of `id` are as they were. */
  ghost predicate OthersKept(before: Table, rows: Table, id: Id) {
    forall i :: i in QueuedIds(before) && i != id ==> i in rows && rows[i] == before[i]
  }

  /** The messages from position `i` on are still as they were claimed. */
  ghost predicate Waiting(rows: Table, batch: seq<Message>, i: nat) {
    forall j :: i <= j < |batch| ==> batch[j].id in QueuedIds(rows) && batch[j] == Scan(batch[j].id, rows[batch[j].id])
  }

  /** The messages before position `i` are gone, dead, or one attempt further. */
  ghost predicate Advanced(rows: Table, batch: seq<Message>, i: nat, maxAttempts: nat)
    requires i <= |batch|
  {
    forall j :: 0 <= j < i && batch[j].id in QueuedIds(rows) ==>
      rows[batch[j].id].attempts == batch[j].attempts + 1 < maxAttempts
  }

  lemma BatchAdvances(before: Table, rows: Table, batch: seq<Message>, i: nat, maxAttempts: nat)
    requires i < |batch| && OncePerId(batch) && Waiting(before, batch, i) && Advanced(before, batch, i, maxAttempts)
    requires OthersKept(before, rows, batch[i].id) && QueuedIds(rows) <= QueuedIds(before)
    requires batch[i].id in QueuedIds(rows) ==> rows[batch[i].id].attempts == batch[i].attempts + 1 < maxAttempts
    ensures Waiting(rows, batch, i + 1) && Advanced(rows, batch, i + 1, maxAttempts)
  {
    forall j | i + 1 <= j < |batch|
      ensures batch[j].id in QueuedIds(rows) && batch[j] == Scan(batch[j].id, rows[batch[j].id])
    {
      assert batch[i].id != batch[j].id;
    }
    forall j | 0 <= j < i + 1 && batch[j].id in QueuedIds(rows)
      ensures rows[batch[j].id].attempts == batch[j].attempts + 1 < maxAttempts
    {
      if j < i { assert batch[j].id != batch[i].id && batch[j].id in QueuedIds(before); }
    }
  }

  ghost predicate Untouched(before: Table, rows: Table, ids: set<Id>) {
    forall id :: id in QueuedIds(before) && id !in ids ==> id in rows && rows[id] == before[id]
  }

  lemma UntouchedOn(before: Table, mid: Table, rows: Table, ids: set<Id>, id: Id)
    requires Untouched(before, mid, ids) && OthersKept(mid, rows, id) && id in ids
    ensures Untouched(before, rows, ids)
  {
  }

  lemma BatchStarts(rows: Table, ids: seq<Id>, now: nat)
    requires forall id :: id in ids ==> id in rows
    ensures Waiting(Leased(rows, ids, now), Ready(rows, ids, now), 0)
    ensures Untouched(rows, Leased(rows, ids, now), IdsOf(Ready(rows, ids, now)))
  {
    var batch := Ready(rows, ids, now);
    forall j | 0 <= j < |batch|
      ensures batch[j].id in QueuedIds(Leased(rows, ids, now)) && batch[j] == Scan(batch[j].id, rows[batch[j].id])
    {
      assert batch[j] in batch;
    }
    forall id | id in ids && Claimable(rows, id, now) ensures id in IdsOf(batch) {
      assert Scan(id, rows[id]) in batch;
    }
  }

  lemma BatchClaimed(b: Books, ids: seq<Id>, now: nat)
    requires InOrder(b) && (forall id :: id in ids ==> id in b.rows)
    requires forall i, j :: 0 <= i < j < |ids| ==> ids[i] != ids[j]
    ensures var ready, rows := Ready(b.rows, ids, now), Leased(b.rows, ids, now);
      InOrder(b.(rows := rows)) && Waiting(rows, ready, 0) && OncePerId(ready) && Untouched(b.rows, rows, IdsOf(ready))
  {
    LeasesKeepOrder(b, Leased(b.rows, ids, now));
    ReadyDistinct(b.rows, ids, now);
    BatchStarts(b.rows, ids, now);
  }

  lemma BatchShadowed(c: Protocol.Config, s: Protocol.State, rows: Table, ids: seq<Id>, now: nat)
    returns (s': Protocol.State)
    requires Mirror.Idle(c, s, rows) && (forall id :: id in ids ==> id in rows && Due(rows[id], now))
    requires forall i, j :: 0 <= i < j < |ids| ==> ids[i] != ids[j]
    ensures Mirror.Delivering(c, s', Leased(rows, ids, now), Ready(rows, ids, now), 0)
    ensures Safety.Grows(s.ledger, s'.ledger)
  {
    s' := Mirror.BatchMirrored(c, s, rows, ids, now, |ids|);
    assert ids[..|ids|] == ids;
    Mirror.SameGrows(s.ledger, s'.ledger);
  }

  /** The stored row holds exactly the recipients nobody reported on, and the names of all rejected ones. */
  ghost predicate Left(m: Message, row: Row, r: Report) {
    && Elements(row.to) == Elements(m.to) - r.delivered - r.rejected
    && row.permanent.Keys == m.permanent.Keys + r.rejected
  }

  ghost predicate AllRejected(m: Message, r: Report) {
    r.delivered == {} && r.rejected == Elements(m.to) && m.to != [] && r.domains != []
  }

  ghost predicate AllReported(m: Message, r: Report) {
    Elements(m.to) == r.delivered + r.rejected && (r.delivered != {} || m.to == [])
  }

  /** The books after the loop of an attempt: the attempt is counted in the history, and only progress was stored. */
  ghost predicate Attempted(b: Books, b': Books, id: Id) {
    InOrder(b) && OnlyProgress(b.rows, b'.rows, id) && b' == b.(rows := b'.rows, history := Bump(b.history, id))
  }

  /** What the flags at the end of the loop tell. */
  lemma Endings(before: Table, rows: Table, m: Message, m': Message, r: Report, any: bool, permCount: nat, failed: bool)
    requires Closed(before, rows, m, m', r, any, permCount, failed)
    ensures failed ==> Left(m, rows[m.id], r) && Left(m, rows[m.id].(to := m'.to, permanent := m'.permanent), r)
    ensures !failed && !any && permCount > 0 ==> AllRejected(m, r) && LastGroupKept(m, rows[m.id], r)
    ensures !failed && (any || permCount == 0) ==> AllReported(m, r)
  {
    FirstElement(m.to);
    assert Elements(m'.to) == Elements(m.to) - r.delivered - r.rejected;
    assert m'.to == [] ==> Elements(m'.to) == {};
  }

  /** The fixed circumstances of an attempt, and the state of the protocol and the task it corresponds to. */
  datatype Scene = Scene(
    before: Table, m: Message, retryAt: nat, talk: string -> Dialogue,
    c: Protocol.Config, start: Protocol.State, task: nat)

  /** The task after a failure that left message `m`. */
  function FailedTask(c: Protocol.Config, m: Message, any: bool, permCount: nat, next: nat): Protocol.Task {
    var m' := m.(attempts := m.attempts + 1);
    if m'.attempts >= c.maxAttempts then Protocol.Task(m', any, permCount, Protocol.Burying)
    else Protocol.Task(m'.(nextAttempt := next), any, permCount, Protocol.SavingRetry)
  }

  /** The protocol has taken the same steps as the attempt. */
  ghost predicate Shadowed(g: Scene, s: Protocol.State, rows: Table, task: Protocol.Task, r: Report) {
    Mirror.Follows(g.c, g.start, s, rows, g.task, task, r.delivered, r.rejected)
  }

  /** An attempt between two domains, in all respects. */
  ghost predicate Running(g: Scene, s: Protocol.State, rows: Table, m': Message, r: Report, any: bool, permCount: nat) {
    && Open(g.before, rows, g.m, m', r, any, permCount) && Answered(g.m.to, m'.to, r, g.talk)
    && Shadowed(g, s, rows, Protocol.Task(m', any, permCount, Protocol.Sending), r)
  }

  /** An attempt that met a failure, in all respects. */
  ghost predicate Stopped(g: Scene, s: Protocol.State, rows: Table, m': Message, r: Report, any: bool, permCount: nat) {
    && Closed(g.before, rows, g.m, m', r, any, permCount, true) && AnsweredAll(g.m.to, r, g.talk, true)
    && Shadowed(g, s, rows, FailedTask(g.c, m', any, permCount, g.retryAt), r)
  }

  lemma ShadowStops(g: Scene, s: Protocol.State, rows: Table, cur: Message, next: Message, r: Report,
                    any: bool, permCount: nat) returns (s': Protocol.State)
    requires cur.to != [] && Shadowed(g, s, rows, Protocol.Task(cur, any, permCount, Protocol.Sending), r)
    requires next == Protocol.Regrouped(cur)
    ensures Shadowed(g, s', rows, FailedTask(g.c, next, any, permCount, g.retryAt), r)
  {
    var task := Protocol.Task(cur, any, permCount, Protocol.Sending);
    assert Protocol.Failed(g.c, task, g.retryAt) == FailedTask(g.c, next, any, permCount, g.retryAt);
    s' := Mirror.FailureFollows(g.c, g.start, s, rows, g.task, task, r.delivered, r.rejected, g.retryAt);
  }

  lemma TurnStops(g: Scene, s: Protocol.State, rows: Table, cur: Message, next: Message, r: Report, r': Report,
                  any: bool, permCount: nat, domain: string) returns (s': Protocol.State)
    requires cur.to != [] && Running(g, s, rows, cur, r, any, permCount) && next == Protocol.Regrouped(cur)
    requires domain == DomainOf(cur.to[0]) && GroupFails(g.talk(domain), Group(cur.to, domain))
    requires r' == r.(domains := r.domains + [domain])
    ensures Stopped(g, s', rows, next, r', any, permCount)
  {
    s' := ShadowStops(g, s, rows, cur, next, r, any, permCount);
    assert Closed(g.before, rows, g.m, next, r', any, permCount, true) by {
      TurnFailed(g.before, rows, g.m, cur, next, r, any, permCount);
    }
    assert AnsweredAll(g.m.to, r', g.talk, true) by {
      NotContacted(r.domains, cur.to);
      AnswersFail(g.m.to, cur.to, r, g.talk, domain);
    }
  }

  lemma NotContacted(domains: seq<string>, rest: seq<Addr>)
    requires Behind(domains, rest) && rest != []
    ensures DomainOf(rest[0]) !in domains
  {
    assert rest[0] in rest;
  }

  lemma CreditedIs(cur: Message, next: Message, any: bool, permCount: nat, done: seq<Addr>, perm: map<Addr, string>)
    requires cur.to != [] && next == Protocol.AfterGroup(cur, perm)
    ensures Protocol.Credited(Protocol.Task(cur, any, permCount, Protocol.Sending), Elements(done), perm)
              .(phase := Protocol.Sending)
         == Protocol.Task(next, any || |done| > 0, permCount + |perm|, Protocol.Sending)
  {
    FirstElement(done);
    assert Elements(done) != {} <==> |done| > 0;
  }

  lemma ShadowGoesOn(g: Scene, s: Protocol.State, rows: Table, cur: Message, next: Message, r: Report, r': Report,
                     any: bool, permCount: nat, done: seq<Addr>, perm: map<Addr, string>) returns (s': Protocol.State)
    requires cur.to != [] && Shadowed(g, s, rows, Protocol.Task(cur, any, permCount, Protocol.Sending), r)
    requires next == Protocol.AfterGroup(cur, perm) && Elements(done) + perm.Keys == Elements(Protocol.NextGroup(cur))
    requires r'.delivered == r.delivered + Elements(done) && r'.rejected == r.rejected + perm.Keys
    ensures Shadowed(g, s', PersistRow(rows, next),
      Protocol.Task(next, any || |done| > 0, permCount + |perm|, Protocol.Sending), r')
  {
    var task := Protocol.Task(cur, any, permCount, Protocol.Sending);
    CreditedIs(cur, next, any, permCount, done, perm);
    s' := Mirror.ReportFollows(g.c, g.start, s, rows, g.task, task, r.delivered, r.rejected, Elements(done), perm);
  }

  lemma TurnGoesOn(g: Scene, s: Protocol.State, rows: Table, cur: Message, next: Message, r: Report, r': Report,
                   any: bool, permCount: nat, done: seq<Addr>, perm: map<Addr, string>, domain: string)
    returns (s': Protocol.State)
    requires cur.to != [] && Running(g, s, rows, cur, r, any, permCount) && next == Protocol.AfterGroup(cur, perm)
    requires domain == DomainOf(cur.to[0]) && !GroupFails(g.talk(domain), Group(cur.to, domain))
    requires Elements(done) == Delivers(g.talk(domain), Group(cur.to, domain))
    requires Elements(done) + perm.Keys == Elements(Group(cur.to, domain))
    requires Distinct(Group(cur.to, domain)) ==> Elements(done) !! perm.Keys
    requires r' == Report(r.delivered + Elements(done), r.rejected + perm.Keys, r.domains + [domain])
    ensures Running(g, s', PersistRow(rows, next), next, r', any || |done| > 0, permCount + |perm|)
  {
    s' := ShadowGoesOn(g, s, rows, cur, next, r, r', any, permCount, done, perm);
    assert Open(g.before, PersistRow(rows, next), g.m, next, r', any || |done| > 0, permCount + |perm|) by {
      TurnDone(g.before, rows, g.m, cur, next, r, r', any, permCount, done, perm);
    }
    assert Answered(g.m.to, next.to, r', g.talk) by {
      NotContacted(r.domains, cur.to);
      AnswersGoOn(g.m.to, cur.to, r, r', g.talk, domain);
    }
  }

  /** How an attempt ends. */
  datatype Fate = Removed | Rejected | Exhausted | Postponed

  /**
   What an attempt makes of the books. The message is removed, all recipients being reported and one delivered; or
   buried, because all were rejected or because the attempts are used up; or postponed with one attempt more, still
   fewer than MaxAttempts. Other queued rows are left alone.
   */
  ghost predicate Concluded(g: Scene, b: Books, b': Books, fate: Fate, r: Report) {
    var m, rows := g.m, b'.rows;
    && InOrder(b') && OthersKept(b.rows, rows, m.id) && QueuedIds(rows) <= QueuedIds(b.rows)
    && Recounted(b, b', m.id, fate, r)
    && match fate
       case Removed => AllReported(m, r) && b' == AfterRemoval(b, m.id, r.rejected != {})
       case Rejected =>
         BuriedOne(b, b', m.id) && AllRejected(m, r) && (m.id in rows ==> LastGroupKept(m, rows[m.id], r))
       case Exhausted =>
         BuriedOne(b, b', m.id) && m.attempts + 1 >= g.c.maxAttempts && (m.id in rows ==> Left(m, rows[m.id], r))
       case Postponed =>
         && m.id in QueuedIds(rows) && rows == b.rows[m.id := rows[m.id]] && Left(m, rows[m.id], r)
         && rows[m.id].attempts == m.attempts + 1 < g.c.maxAttempts && rows[m.id].nextAttempt == g.retryAt
         && rows[m.id].leaseUntil == 0
  }

  /** The counters and the history entry after an attempt: a delivery with rejections is counted by none of them. */
  ghost predicate Recounted(b: Books, b': Books, id: Id, fate: Fate, r: Report) {
    && b'.counters.queued == b.counters.queued && b'.counters.requeued == b.counters.requeued
    && b'.counters.dead == b.counters.dead + (if fate.Rejected? || fate.Exhausted? then 1 else 0)
    && b'.counters.delivered == b.counters.delivered + (if fate.Removed? && r.rejected == {} then 1 else 0)
    && b'.partials == b.partials + (if fate.Removed? && r.rejected != {} then 1 else 0)
    && b'.history.Keys == b.history.Keys && (forall i :: i in b.history && i != id ==> b'.history[i] == b.history[i])
    && (id in b.history ==> Told(b.history[id], b'.history[id], fate))
  }

  lemma RemovalRecounted(b: Books, id: Id, r: Report)
    ensures Recounted(b, AfterRemoval(b, id, r.rejected != {}), id, Removed, r)
  {
  }

  lemma RetryRecounted(b: Books, id: Id, rows: Table, r: Report)
    ensures Recounted(b, AfterRetry(b, id, rows), id, Postponed, r)
  {
  }

  lemma BurialRecounted(b: Books, b': Books, id: Id, fate: Fate, r: Report)
    requires (fate.Rejected? || fate.Exhausted?) && b'.counters == b.counters.(dead := b.counters.dead + 1)
    requires b'.history == SetStatus(Bump(b.history, id), id, SendDead) && b'.partials == b.partials
    ensures Recounted(b, b', id, fate, r)
  {
  }

  predicate Told(l: SendLog, l': SendLog, fate: Fate) {
    && l'.attempts == l.attempts + 1
    && match fate
       case Removed => l'.status == SendDelivered
       case Rejected => l'.status == SendDead
       case Exhausted => l'.status == SendDead
       case Postponed => l'.status == l.status
  }

  ghost predicate BuriedOne(b: Books, b': Books, id: Id) {
    id !in QueuedIds(b'.rows) && b'.counters == b.counters.(dead := b.counters.dead + 1)
  }

  /** A postponed message is in no batch before its time. */
  lemma PostponedWaits(g: Scene, b: Books, b': Books, r: Report, rows: Table, ready: seq<Message>, now: nat, limit: nat)
    requires Concluded(g, b, b', Postponed, r) && IsBatch(b'.rows, rows, ready, now, limit) && now < g.retryAt
    ensures forall m :: m in ready ==> m.id != g.m.id
  {
  }

  /** From its time on it is, unless more rows than the LIMIT are ripe. */
  lemma PostponedReturns(g: Scene, b: Books, b': Books, r: Report, rows: Table, ready: seq<Message>, now: nat,
                         limit: nat)
    requires Concluded(g, b, b', Postponed, r) && IsBatch(b'.rows, rows, ready, now, limit) && g.retryAt <= now
    ensures |RipeRows(b'.rows, now)| <= limit ==> Returned(ready, g.m.id)
  {
    assert |RipeRows(b'.rows, now)| <= limit ==> g.m.id in RipeRows(b'.rows, now);
  }

  /** The loop of an attempt is over, and its flags tell how. */
  ghost predicate LoopOver(g: Scene, s: Protocol.State, rows: Table, m': Message, r: Report, any: bool, permCount: nat,
                           failed: bool)
    requires g.m.id in rows
  {
    && m'.id == g.m.id && m'.attempts == g.m.attempts && (failed <==> m'.to != [])
    && Shadowed(g, s, rows, if failed then FailedTask(g.c, m', any, permCount, g.retryAt)
                            else Protocol.Task(m', any, permCount, Protocol.Sending), r)
    && (failed ==> Left(g.m, rows[g.m.id], r) && Left(g.m, rows[g.m.id].(to := m'.to, permanent := m'.permanent), r))
    && (!failed && !any && permCount > 0 ==> AllRejected(g.m, r) && LastGroupKept(g.m, rows[g.m.id], r))
    && (!failed && (any || permCount == 0) ==> AllReported(g.m, r) && (permCount > 0 <==> r.rejected != {}))
  }

  lemma LoopEnds(g: Scene, s: Protocol.State, rows: Table, m': Message, r: Report, any: bool, permCount: nat,
                 failed: bool)
    requires Closed(g.before, rows, g.m, m', r, any, permCount, failed)
    requires Shadowed(g, s, rows, if failed then FailedTask(g.c, m', any, permCount, g.retryAt)
                                  else Protocol.Task(m', any, permCount, Protocol.Sending), r)
    ensures LoopOver(g, s, rows, m', r, any, permCount, failed)
  {
    Endings(g.before, rows, g.m, m', r, any, permCount, failed);
  }

  /** Twice the concurrency, and two at least. */
  function BatchLimit(concurrency: int): nat {
    if concurrency <= 1 then 2 else 2 * concurrency
  }

  class Deliverer {
    const store: Store
    const maxAttempts: nat
    const concurrency: int

    constructor (store: Store, maxAttempts: nat, concurrency: int)
      ensures this.store == store && this.maxAttempts == maxAttempts && this.concurrency == concurrency
    {
      this.store, this.maxAttempts, this.concurrency := store, maxAttempts, concurrency;
    }

    function Conf(): Protocol.Config {
      Protocol.Config(maxAttempts, store.deadMax)
    }

    /** One turn of the delivery loop: contact the domain of the first recipient and persist what is left. */
    method SendNext(m: Message, talk: string -> Dialogue)
      returns (m': Message, done: seq<Addr>, perm: map<Addr, string>, failed: bool)
      requires m.to != []
      modifies store`rows
      ensures var domain := DomainOf(m.to[0]);
        && (failed <==> GroupFails(talk(domain), Group(m.to, domain)))
        && (failed ==> m' == Protocol.Regrouped(m) && store.rows == old(store.rows)
                       && m' == m.(to := Rest(m.to, domain) + Group(m.to, domain)))
        && (!failed ==> m' == Protocol.AfterGroup(m, perm) && store.rows == PersistRow(old(store.rows), m')
                        && m' == m.(to := Rest(m.to, domain), permanent := m.permanent + perm)
                        && Elements(done) == Delivers(talk(domain), Group(m.to, domain))
                        && Elements(done) + perm.Keys == Elements(Group(m.to, domain))
                        && (Distinct(Group(m.to, domain)) ==> Elements(done) !! perm.Keys))
      ensures |Rest(m.to, DomainOf(m.to[0]))| < |m.to|
    {
      var domain := DomainOf(m.to[0]);
      var group, keep := SplitByDomain(m.to, domain);
      assert m.to[0] in group && |multiset(group) + multiset(keep)| == |m.to|;
      done, perm, failed := DeliverGroup(group, talk(domain));
      if failed {
        m' := m.(to := keep + group);
        assert m' == Protocol.Regrouped(m);
      } else {
        var remaining := PutBack(keep, group, done, perm);
        NothingPutBack(keep, remaining);
        m' := m.(to := remaining, permanent := m.permanent + perm);
        assert m' == Protocol.AfterGroup(m, perm);
        store.Persist(m');
      }
    }

    /** A turn keeps the accounts. */
    method Turn(ghost g: Scene, ghost s: Protocol.State, cur: Message, any: bool, permCount: nat, ghost r: Report,
                talk: string -> Dialogue)
      returns (next: Message, any': bool, permCount': nat, failed: bool, ghost r': Report, ghost s': Protocol.State)
      requires cur.to != [] && talk == g.talk && Running(g, s, store.rows, cur, r, any, permCount)
      modifies store`rows
      ensures if failed then Stopped(g, s', store.rows, next, r', any', permCount')
              else Running(g, s', store.rows, next, r', any', permCount') && |next.to| < |cur.to|
    {
      ghost var rows := store.rows;
      var done, perm;
      next, done, perm, failed := SendNext(cur, talk);
      if failed {
        any', permCount', r' := any, permCount, r.(domains := r.domains + [DomainOf(cur.to[0])]);
        s' := TurnStops(g, s, rows, cur, next, r, r', any, permCount, DomainOf(cur.to[0]));
      } else {
        any', permCount' := any || |done| > 0, permCount + |perm|;
        r' := Report(r.delivered + Elements(done), r.rejected + perm.Keys, r.domains + [DomainOf(cur.to[0])]);
        s' := TurnGoesOn(g, s, rows, cur, next, r, r', any, permCount, done, perm, DomainOf(cur.to[0]));
      }
    }

    /** The loop of `deliver`: one domain after the other until none is left or one fails. */
    method SendAll(ghost g: Scene, m: Message, talk: string -> Dialogue)
      returns (m': Message, deliveredAny: bool, permCount: nat, failed: bool, ghost r: Report, ghost s: Protocol.State)
      requires m.id in QueuedIds(store.rows) && m == Scan(m.id, store.rows[m.id])
      requires g.before == store.rows && g.m == m && g.talk == talk
      requires Mirror.At(g.c, g.start, store.rows, g.task, Protocol.Task(m, false, 0, Protocol.Sending))
      modifies store`rows
      ensures OnlyProgress(old(store.rows), store.rows, m.id)
      ensures LoopOver(g, s, store.rows, m', r, deliveredAny, permCount, failed)
      ensures Accounted(m.to, r.delivered, r.rejected, m'.to) && Each(r.domains) && AnsweredAll(m.to, r, talk, failed)
      ensures ByHost(m.to, r.domains) && Contacted(r)
    {
      m', deliveredAny, permCount, failed := m, false, 0, false;
      r, s := Report({}, {}, []), g.start;
      Mirror.StartFollows(g.c, s, store.rows, g.task, Protocol.Task(m, false, 0, Protocol.Sending));
      while m'.to != [] && !failed
        invariant !failed ==> Running(g, s, store.rows, m', r, deliveredAny, permCount)
        invariant failed ==> Stopped(g, s, store.rows, m', r, deliveredAny, permCount)
        decreases !failed, |m'.to|
      {
        m', deliveredAny, permCount, failed, r, s := Turn(g, s, m', deliveredAny, permCount, r, talk);
      }
      if !failed { AnswersEnd(m.to, m'.to, r, talk); }
      assert Closed(g.before, store.rows, m, m', r, deliveredAny, permCount, failed);
      LoopEnds(g, s, store.rows, m', r, deliveredAny, permCount, failed);
      ConversationLaw(m.to, r.domains);
    }

    /** Removes the message and records the delivery; a removal with rejections is counted by nobody. */
    method Finish(id: Id, partial: bool, ghost b: Books)
      requires Attempted(b, store.Contents(), id)
      modifies store
      ensures store.Contents() == AfterRemoval(b, id, partial) && InOrder(store.Contents())
      ensures OthersKept(b.rows, store.rows, id) && QueuedIds(store.rows) <= QueuedIds(b.rows)
      ensures store.rows == SucceedRow(old(store.rows), id)
    {
      assert SucceedRow(store.rows, id) == b.rows - {id};
      store.Succeed(id);
      store.SetSendStatus(id, SendDelivered);
      if partial {
        store.partials := store.partials + 1;
      } else {
        store.counters := store.counters.(delivered := store.counters.delivered + 1);
      }
      RemovalKeepsOrder(b, id, partial);
    }

    /** Moves the message to the dead letters and records it. */
    method Bury(id: Id, ghost b: Books) returns (ghost victims: seq<Id>)
      requires Attempted(b, store.Contents(), id)
      modifies store
      ensures InOrder(store.Contents()) && id !in QueuedIds(store.rows)
      ensures OthersKept(b.rows, store.rows, id) && QueuedIds(store.rows) <= QueuedIds(b.rows)
      ensures id in store.rows ==>
        store.rows[id].to == old(store.rows)[id].to && store.rows[id].permanent == old(store.rows)[id].permanent
      ensures store.counters == b.counters.(dead := b.counters.dead + 1)
      ensures store.history == SetStatus(Bump(b.history, id), id, SendDead) && store.partials == b.partials
      ensures store.rows == BuryRow(old(store.rows), id) - Elements(victims)
      ensures Mirror.Prunes(Conf(), old(store.rows), id, victims)
    {
      ghost var row := BuryRow(store.rows, id)[id];
      assert BuryRow(store.rows, id) == b.rows[id := row];
      victims := store.DeadLetter(id);
      store.SetSendStatus(id, SendDead);
      store.counters := store.counters.(dead := store.counters.dead + 1);
      assert store.Contents() == AfterBurial(b, id, b.rows[id := row], Elements(victims));
      BurialKeepsOrder(b, id, row, Elements(victims));
    }

    /** A burial, and the steps of the protocol it corresponds to. */
    method BuryAs(ghost g: Scene, ghost s: Protocol.State, ghost task: Protocol.Task, ghost r: Report, id: Id,
                  ghost b: Books)
      returns (ghost s': Protocol.State)
      requires Attempted(b, store.Contents(), id)
      requires g.c == Conf() && Shadowed(g, s, store.rows, task, r)
      requires task.phase == Protocol.Burying && task.msg.id == id
      modifies store
      ensures InOrder(store.Contents()) && id !in QueuedIds(store.rows)
      ensures OthersKept(b.rows, store.rows, id) && QueuedIds(store.rows) <= QueuedIds(b.rows)
      ensures id in store.rows ==>
        store.rows[id].to == old(store.rows)[id].to && store.rows[id].permanent == old(store.rows)[id].permanent
      ensures store.counters == b.counters.(dead := b.counters.dead + 1)
      ensures store.history == SetStatus(Bump(b.history, id), id, SendDead) && store.partials == b.partials
      ensures Mirror.Over(g.c, g.start, s', store.rows, g.task, id, r.delivered, r.rejected)
    {
      ghost var rows := store.rows;
      ghost var victims := Bury(id, b);
      s' := Mirror.BurialFollows(g.c, g.start, s, rows, g.task, task, victims, r.delivered, r.rejected);
    }

    /** Counts the attempt and schedules the next one. */
    method Postpone(m: Message, retryAt: nat, ghost b: Books)
      requires Attempted(b, store.Contents(), m.id)
      requires m.to != [] && m.attempts == b.rows[m.id].attempts + 1
      modifies store
      ensures InOrder(store.Contents()) && m.id in QueuedIds(store.rows)
      ensures OthersKept(b.rows, store.rows, m.id) && QueuedIds(store.rows) <= QueuedIds(b.rows)
      ensures store.rows == b.rows[m.id := store.rows[m.id]]
      ensures store.rows[m.id].to == m.to && store.rows[m.id].permanent == m.permanent
      ensures store.rows[m.id].attempts == m.attempts
      ensures store.rows[m.id].leaseUntil == 0 && store.rows[m.id].nextAttempt == retryAt
      ensures store.Contents() == AfterRetry(b, m.id, store.rows)
      ensures store.rows == ReleaseRow(PersistRow(old(store.rows), m.(nextAttempt := retryAt)), m.id)
    {
      store.Persist(m.(nextAttempt := retryAt));
      store.Release(m.id);
      ghost var row := store.rows[m.id];
      assert store.rows == b.rows[m.id := row];
      assert store.Contents() == AfterRetry(b, m.id, b.rows[m.id := row]);
      RetryKeepsOrder(b, m.id, row);
    }

    /** A postponement, and the steps of the protocol it corresponds to. */
    method PostponeAs(ghost g: Scene, ghost s: Protocol.State, ghost task: Protocol.Task, ghost r: Report,
                      m: Message, retryAt: nat, ghost b: Books)
      returns (ghost s': Protocol.State)
      requires Attempted(b, store.Contents(), m.id) && m.to != [] && m.attempts == b.rows[m.id].attempts + 1
      requires Shadowed(g, s, store.rows, task, r) && task.phase == Protocol.SavingRetry
      requires task.msg == m.(nextAttempt := retryAt)
      modifies store
      ensures InOrder(store.Contents()) && m.id in QueuedIds(store.rows)
      ensures OthersKept(b.rows, store.rows, m.id) && QueuedIds(store.rows) <= QueuedIds(b.rows)
      ensures store.rows == b.rows[m.id := store.rows[m.id]]
      ensures Scan(m.id, store.rows[m.id]) == m.(nextAttempt := retryAt) && store.rows[m.id].leaseUntil == 0
      ensures store.Contents() == AfterRetry(b, m.id, store.rows)
      ensures Mirror.Over(g.c, g.start, s', store.rows, g.task, m.id, r.delivered, r.rejected)
    {
      ghost var rows := store.rows;
      Postpone(m, retryAt, b);
      s' := Mirror.RetryFollows(g.c, g.start, s, rows, g.task, task, r.delivered, r.rejected);
    }

    /** After a failure: the attempt is counted, and the message postponed or given up. */
    method GiveUpOrRetry(ghost g: Scene, ghost s: Protocol.State, m': Message, ghost any: bool, ghost permCount: nat,
                         ghost r: Report, retryAt: nat, ghost b: Books)
      returns (ghost fate: Fate, ghost s': Protocol.State)
      requires Attempted(b, store.Contents(), g.m.id) && LoopOver(g, s, store.rows, m', r, any, permCount, true)
      requires g.c == Conf() && g.retryAt == retryAt && g.m.attempts == b.rows[g.m.id].attempts
      modifies store
      ensures Concluded(g, b, store.Contents(), fate, r) && (fate.Exhausted? || fate.Postponed?)
      ensures Mirror.Over(g.c, g.start, s', store.rows, g.task, g.m.id, r.delivered, r.rejected)
    {
      var last := m'.(attempts := m'.attempts + 1);
      ghost var task := FailedTask(g.c, m', any, permCount, retryAt);
      if last.attempts >= maxAttempts {
        fate := Exhausted;
        s' := BuryAs(g, s, task, r, m'.id, b);
        BurialRecounted(b, store.Contents(), m'.id, fate, r);
      } else {
        fate := Postponed;
        s' := PostponeAs(g, s, task, r, last, retryAt, b);
        RetryRecounted(b, m'.id, store.rows, r);
      }
    }

    /** Without a failure: the message is buried if nobody took it, else removed. */
    method BuryOrRemove(ghost g: Scene, ghost s: Protocol.State, m': Message, any: bool, permCount: nat,
                        ghost r: Report, ghost b: Books)
      returns (ghost fate: Fate, ghost s': Protocol.State)
      requires Attempted(b, store.Contents(), g.m.id) && LoopOver(g, s, store.rows, m', r, any, permCount, false)
      requires g.c == Conf()
      modifies store
      ensures Concluded(g, b, store.Contents(), fate, r) && (fate.Rejected? || fate.Removed?)
      ensures Mirror.Over(g.c, g.start, s', store.rows, g.task, g.m.id, r.delivered, r.rejected)
    {
      ghost var task, rows := Protocol.Task(m', any, permCount, Protocol.Sending), store.rows;
      if !any && permCount > 0 {
        fate := Rejected;
        s' := Mirror.LeaveFollows(g.c, g.start, s, rows, g.task, task, r.delivered, r.rejected, Protocol.Burying);
        s' := BuryAs(g, s', task.(phase := Protocol.Burying), r, m'.id, b);
        BurialRecounted(b, store.Contents(), m'.id, fate, r);
      } else {
        fate := Removed;
        s' := Mirror.LeaveFollows(g.c, g.start, s, rows, g.task, task, r.delivered, r.rejected, Protocol.Finishing);
        Finish(m'.id, permCount > 0, b);
        task := task.(phase := Protocol.Finishing);
        RemovalRecounted(b, m'.id, r);
        s' := Mirror.FinishFollows(g.c, g.start, s', rows, g.task, task, r.delivered, r.rejected);
      }
    }

    /**
     One attempt. The delivered recipients are those the exchangers took, none of them for the second time; history,
     queue and counters agree again at the end; and what happens to the table is a run of the single worker of the
     protocol, in which task `t` began in state `s`.
     */
    method Deliver(m: Message, talk: string -> Dialogue, retryAt: nat, ghost s: Protocol.State, ghost t: nat)
      returns (ghost fate: Fate, ghost r: Report, ghost s': Protocol.State)
      requires InOrder(store.Contents()) && m.id in QueuedIds(store.rows) && m == Scan(m.id, store.rows[m.id])
      requires Mirror.At(Conf(), s, store.rows, t, Protocol.Task(m, false, 0, Protocol.Sending))
      modifies store
      ensures Concluded(Scene(old(store.rows), m, retryAt, talk, Conf(), s, t),
        old(store.Contents()), store.Contents(), fate, r)
      ensures AnsweredAll(m.to, r, talk, fate.Exhausted? || fate.Postponed?)
      ensures r.delivered !! Protocol.Of(s.ledger.delivered, m.id)
      ensures Mirror.Over(Conf(), s, s', store.rows, t, m.id, r.delivered, r.rejected)
    {
      ghost var b, g := store.Contents(), Scene(store.rows, m, retryAt, talk, Conf(), s, t);
      var m', any, permCount, failed;
      store.BumpSendAttempt(m.id);
      m', any, permCount, failed, r, s' := SendAll(g, m, talk);
      assert Attempted(b, store.Contents(), m.id);
      Mirror.SendsFresh(Conf(), s, t);
      if failed {
        fate, s' := GiveUpOrRetry(g, s', m', any, permCount, r, retryAt, b);
      } else {
        fate, s' := BuryOrRemove(g, s', m', any, permCount, r, b);
      }
    }

    /** The claims of a batch, and the steps of the protocol they correspond to. */
    method ClaimBatch(now: nat, ghost s: Protocol.State, ghost b: Books)
      returns (ready: seq<Message>, ghost s': Protocol.State)
      requires b == store.Contents() && InOrder(b) && Mirror.Idle(Conf(), s, b.rows)
      modifies store`rows
      ensures InOrder(store.Contents()) && Waiting(store.rows, ready, 0) && OncePerId(ready)
      ensures forall m :: m in ready ==> m.id in b.rows && m == Scan(m.id, b.rows[m.id])
      ensures Untouched(b.rows, store.rows, IdsOf(ready))
      ensures Mirror.Delivering(Conf(), s', store.rows, ready, 0) && Safety.Grows(s.ledger, s'.ledger)
      ensures IsBatch(b.rows, store.rows, ready, now, BatchLimit(concurrency))
    {
      var limit := concurrency * 2;
      if limit < 2 {
        limit := 2;
      }
      assert (if limit <= 0 then 100 else limit) == BatchLimit(concurrency);
      ghost var ids;
      ready, ids := store.NextDue(now, limit);
      BatchClaimed(b, ids, now);
      s' := BatchShadowed(Conf(), s, b.rows, ids, now);
    }

    /**
     A whole batch. Afterwards every message it claimed is gone, dead or has one attempt more, still fewer than
     MaxAttempts; all other queued rows are as before, and the books agree. No recipient of a claimed message was
     delivered before, and the table goes from one idle state of the protocol's single worker to another.
     */
    method ProcessBatch(now: nat, talk: (Id, string) -> Dialogue, retryAt: Id -> nat,
                        ghost s: Protocol.State)
      returns (ready: seq<Message>, ghost s': Protocol.State)
      requires InOrder(store.Contents()) && Mirror.Idle(Conf(), s, store.rows)
      modifies store
      ensures InOrder(store.Contents())
      ensures forall m :: m in ready ==> m.id in old(store.rows) && m == Scan(m.id, old(store.rows)[m.id])
      ensures forall m :: m in ready ==> SoloWorker.Fresh(s.ledger, m.id, m.to)
      ensures exists rows :: IsBatch(old(store.rows), rows, ready, now, BatchLimit(concurrency))
      ensures OncePerId(ready) && Advanced(store.rows, ready, |ready|, maxAttempts)
      ensures Untouched(old(store.rows), store.rows, IdsOf(ready))
      ensures Mirror.Idle(Conf(), s', store.rows) && Safety.Grows(s.ledger, s'.ledger)
    {
      ghost var b := store.Contents();
      ready, s' := ClaimBatch(now, s, b);
      forall m | m in ready ensures SoloWorker.Fresh(s.ledger, m.id, m.to) {
        Mirror.IdleFresh(Conf(), s, b.rows, m.id);
      }
      for i := 0 to |ready|
        invariant InOrder(store.Contents())
        invariant Waiting(store.rows, ready, i) && Advanced(store.rows, ready, i, maxAttempts)
        invariant Untouched(b.rows, store.rows, IdsOf(ready))
        invariant Mirror.Delivering(Conf(), s', store.rows, ready, i) && Safety.Grows(s.ledger, s'.ledger)
      {
        s' := DeliverNext(ready, i, d => talk(ready[i].id, d), retryAt(ready[i].id), s, s', b);
      }
    }

    /** One turn of the batch. */
    method DeliverNext(ready: seq<Message>, i: nat, talk: string -> Dialogue, retryAt: nat,
                       ghost s0: Protocol.State, ghost s: Protocol.State, ghost b: Books)
      returns (ghost s': Protocol.State)
      requires i < |ready| && InOrder(store.Contents()) && OncePerId(ready)
      requires Waiting(store.rows, ready, i) && Advanced(store.rows, ready, i, maxAttempts)
      requires Untouched(b.rows, store.rows, IdsOf(ready))
      requires Mirror.Delivering(Conf(), s, store.rows, ready, i) && Safety.Grows(s0.ledger, s.ledger)
      modifies store
      ensures InOrder(store.Contents())
      ensures Waiting(store.rows, ready, i + 1) && Advanced(store.rows, ready, i + 1, maxAttempts)
      ensures Untouched(b.rows, store.rows, IdsOf(ready))
      ensures Mirror.Delivering(Conf(), s', store.rows, ready, i + 1) && Safety.Grows(s0.ledger, s'.ledger)
    {
      var m := ready[i];
      ghost var rows := store.rows;
      ghost var fate, r;
      Mirror.NextTask(ready, i);
      fate, r, s' := Deliver(m, talk, retryAt, s, i);
      BatchAdvances(rows, store.rows, ready, i, maxAttempts);
      UntouchedOn(b.rows, rows, store.rows, IdsOf(ready), m.id);
      Mirror.LoggedGrows(s0.ledger, s.ledger, s'.ledger, m.id, r.delivered, r.rejected);
    }
  }
}
