/** Seeding and editing the account table of internal/storage/accounts.go. */
module Accounts {
  import opened Wrappers
  import opened Text
  import opened Merge

  datatype Account = Account(email: string, hash: string, allowed: seq<string>)

  /** What a seed holds beside its e-mail, which is the key of its `Entry`. */
  datatype Login = Login(password: string, extra: seq<string>)

  type Seed = Entry<Login>

  datatype Summary = Summary(created: seq<string>, updated: seq<string>, same: seq<string>)

  datatype Error = EmptyEmail | EmptyPassword(email: string) | HashFailed(email: string) | NotFound(email: string)

  /** The table, the summary so far and the error that ended the call, if any. */
  datatype Outcome = Outcome(accounts: map<string, Account>, summary: Summary, error: Option<Error>)

  type Verify = (string, string) -> bool

  // ---- Allowed senders ----

  /** The first occurrences in `extra`, normalised, of what is neither empty nor already in `start`. */
  function Extend(start: seq<string>, extra: seq<string>): seq<string>
    decreases |extra|
  {
    if extra == [] then start
    else
      var n := |extra| - 1;
      var out, f := Extend(start, extra[..n]), Canon(extra[n]);
      if f == "" || f in out then out else out + [f]
  }

  function Allowed(email: string, extra: seq<string>): seq<string> {
    Extend([email], extra)
  }

  predicate Distinct(l: seq<string>) {
    forall i, j :: 0 <= i < j < |l| ==> l[i] != l[j]
  }

  predicate Normalised(l: seq<string>) {
    forall i :: 0 <= i < |l| ==> l[i] != "" && Canon(l[i]) == l[i]
  }

  predicate Asks(extra: seq<string>, f: string) {
    f != "" && exists i :: 0 <= i < |extra| && Canon(extra[i]) == f
  }

  /** What every stored list of allowed senders satisfies. */
  predicate Proper(email: string, l: seq<string>) {
    l != [] && l[0] == email && Distinct(l) && Normalised(l)
  }

  lemma {:induction false} ExtendHolds(start: seq<string>, extra: seq<string>, f: string)
    ensures f in Extend(start, extra) <==> f in start || Asks(extra, f)
    decreases |extra|
  {
    if extra != [] {
      var n := |extra| - 1;
      ExtendHolds(start, extra[..n], f);
    }
  }

  lemma {:induction false} ExtendProper(start: seq<string>, extra: seq<string>)
    requires Distinct(start) && Normalised(start)
    ensures start <= Extend(start, extra)
    ensures Distinct(Extend(start, extra)) && Normalised(Extend(start, extra))
    decreases |extra|
  {
    if extra != [] {
      ExtendProper(start, extra[..|extra| - 1]);
      CanonIdempotent(extra[|extra| - 1]);
    }
  }

  /** Every list normalizeAllowed returns starts with the account's own address, without repetition. */
  lemma AllowedProper(email: string, extra: seq<string>)
    requires email != "" && Canon(email) == email
    ensures Proper(email, Allowed(email, extra))
  {
    ExtendProper([email], extra);
  }

  /** An account may send as itself and as every non-empty address asked for, and as nobody else. */
  lemma AllowedExactly(email: string, extra: seq<string>, f: string)
    ensures f in Allowed(email, extra) <==> f == email || Asks(extra, f)
  {
    ExtendHolds([email], extra, f);
  }

  /** Normalising after a first normalisation that left out nothing new gives the same list. */
  lemma {:induction false} ExtendAgain(start: seq<string>, front: seq<string>, extra: seq<string>)
    requires Distinct(front) && Normalised(front)
    ensures Extend(start, Extend(front, extra)) == Extend(Extend(start, front), extra)
    decreases |extra|
  {
    if extra != [] {
      var n := |extra| - 1;
      var kept, f := Extend(front, extra[..n]), Canon(extra[n]);
      ExtendAgain(start, front, extra[..n]);
      ExtendHolds(start, kept, f);
      if f != "" {
        if f in kept {
          ExtendProper(front, extra[..n]);
          var i :| 0 <= i < |kept| && kept[i] == f;
          assert Asks(kept, f);
        } else {
          CanonIdempotent(extra[n]);
          assert (kept + [f])[..|kept|] == kept;
        }
      }
    }
  }

  /** normalizeExtraAllowed when the configuration is read changes nothing in what is stored. */
  lemma ConfigNormalisationHarmless(email: string, extra: seq<string>)
    ensures Allowed(email, Extend([], extra)) == Allowed(email, extra)
  {
    ExtendAgain([email], [], extra);
  }

  /** Saving the list an account already has stores that same list. */
  lemma {:induction false} ProperStable(email: string, l: seq<string>, n: nat)
    requires Proper(email, l) && 0 < n <= |l|
    ensures Extend([email], l[..n]) == l[..n]
  {
    var front := l[..n - 1];
    assert l[..n][..n - 1] == front && l[..n][n - 1] == l[n - 1] && l[..n] == front + [l[n - 1]];
    if n == 1 {
      assert front == [] && Canon(email) == email;
    } else {
      ProperStable(email, l, n - 1);
    }
  }

  lemma AllowedIdempotent(email: string, extra: seq<string>)
    requires email != "" && Canon(email) == email
    ensures Allowed(email, Allowed(email, extra)) == Allowed(email, extra)
  {
    AllowedProper(email, extra);
    var l := Allowed(email, extra);
    ProperStable(email, l, |l|);
    assert l[..|l|] == l;
  }

  /** normalizeAllowed for `start == [email]`, normalizeExtraAllowed for `start == []`. */
  method NormalizeList(start: seq<string>, extra: seq<string>) returns (out: seq<string>)
    ensures out == Extend(start, extra)
  {
    var seen := set f | f in start;
    out := start;
    for i := 0 to |extra|
      invariant out == Extend(start, extra[..i])
      invariant forall f :: f in seen <==> f in out
    {
      var f := Canon(extra[i]);
      assert extra[..i + 1][..i] == extra[..i];
      if f != "" && f !in seen {
        seen := seen + {f};
        out := out + [f];
      }
    }
    assert extra[..|extra|] == extra;
  }

  predicate Allows(a: Account, from: string) {
    Canon(from) in a.allowed
  }

  method AllowsFrom(a: Account, from: string) returns (ok: bool)
    ensures ok <==> Allows(a, from)
  {
    var f := Canon(from);
    for i := 0 to |a.allowed|
      invariant f !in a.allowed[..i]
    {
      if a.allowed[i] == f {
        return true;
      }
    }
    return false;
  }

  // ---- Seeding ----

  /** The stored account is what the seed asks for. */
  predicate Matches(verify: Verify, email: string, a: Account, login: Login) {
    verify(a.hash, login.password) && a.allowed == Allowed(email, login.extra)
  }

  /** The loop over the seeds, when `hashes[i]` is what hashing the i-th password gives. */
  function Upserted(
    verify: Verify, accounts: map<string, Account>, seeds: seq<Seed>, hashes: seq<Option<string>>): Outcome
    requires |hashes| == |seeds|
    decreases |seeds|
  {
    if seeds == [] then Outcome(accounts, Summary([], [], []), None)
    else
      var n := |seeds| - 1;
      UpsertOne(verify, Upserted(verify, accounts, seeds[..n], hashes[..n]), seeds[n], hashes[n])
  }

  function UpsertOne(verify: Verify, o: Outcome, seed: Seed, hash: Option<string>): Outcome {
    var email := Canon(seed.key);
    var login := seed.rest;
    if o.error.Some? then o
    else if email == "" then o.(error := Some(EmptyEmail))
    else if login.password == "" then o.(error := Some(EmptyPassword(email)))
    else if email in o.accounts && Matches(verify, email, o.accounts[email], login) then
      o.(summary := o.summary.(same := o.summary.same + [email]))
    else if hash.None? then o.(error := Some(HashFailed(email)))
    else
      var account := Account(email, hash.value, Allowed(email, login.extra));
      Outcome(
        o.accounts[email := account],
        if email in o.accounts then o.summary.(updated := o.summary.updated + [email])
        else o.summary.(created := o.summary.created + [email]),
        None)
  }

  /** The one thing known about hashing: a hash verifies the password it was made from. */
  predicate HashesVerify(verify: Verify, seeds: seq<Seed>, hashes: seq<Option<string>>) {
    |hashes| == |seeds| &&
    forall i :: 0 <= i < |seeds| ==> hashes[i].Some? ==> verify(hashes[i].value, seeds[i].rest.password)
  }

  /** Every key is normal, names its account, and every list of allowed senders is proper. */
  predicate ValidAccounts(accounts: map<string, Account>) {
    forall k :: k in accounts ==> k != "" && Canon(k) == k && accounts[k].email == k && Proper(k, accounts[k].allowed)
  }

  lemma UpsertOneKeepsValid(verify: Verify, o: Outcome, seed: Seed, hash: Option<string>)
    requires ValidAccounts(o.accounts)
    ensures ValidAccounts(UpsertOne(verify, o, seed, hash).accounts)
  {
    CanonIdempotent(seed.key);
    if Canon(seed.key) != "" { AllowedProper(Canon(seed.key), seed.rest.extra); }
  }

  /** Seeding keeps the table valid, also when it stops with an error. */
  lemma {:induction false} UpsertKeepsValid(
    verify: Verify, accounts: map<string, Account>, seeds: seq<Seed>, hashes: seq<Option<string>>)
    requires ValidAccounts(accounts) && |hashes| == |seeds|
    ensures ValidAccounts(Upserted(verify, accounts, seeds, hashes).accounts)
    decreases |seeds|
  {
    if seeds != [] {
      var n := |seeds| - 1;
      UpsertKeepsValid(verify, accounts, seeds[..n], hashes[..n]);
      UpsertOneKeepsValid(verify, Upserted(verify, accounts, seeds[..n], hashes[..n]), seeds[n], hashes[n]);
    }
  }

  /** Both tables have the account, with the same contents, or neither has it. */
  predicate Same(a: map<string, Account>, b: map<string, Account>, k: string) {
    (k in a <==> k in b) && (k in a && k in b ==> a[k] == b[k])
  }

  /** An account no seed names is never touched, also when the call stops with an error. */
  lemma {:induction false} OthersUntouched(
    verify: Verify, accounts: map<string, Account>, seeds: seq<Seed>, hashes: seq<Option<string>>, k: string)
    requires |hashes| == |seeds| && !Occurs(seeds, k)
    ensures Same(Upserted(verify, accounts, seeds, hashes).accounts, accounts, k)
    decreases |seeds|
  {
    if seeds != [] {
      var n := |seeds| - 1;
      SplitLast(seeds);
      FirstIndexAppend(seeds[..n], seeds[n], k);
      OthersUntouched(verify, accounts, seeds[..n], hashes[..n], k);
    }
  }

  lemma SplitLast(seeds: seq<Seed>)
    requires seeds != []
    ensures seeds == seeds[..|seeds| - 1] + [seeds[|seeds| - 1]]
  {
  }

  lemma SeedWins(verify: Verify, o: Outcome, seed: Seed, hash: Option<string>)
    requires hash.Some? ==> verify(hash.value, seed.rest.password)
    requires UpsertOne(verify, o, seed, hash).error.None?
    ensures
      var k, after := Canon(seed.key), UpsertOne(verify, o, seed, hash).accounts;
      k in after && Matches(verify, k, after[k], seed.rest)
  {
  }

  /** After a successful call every seeded account is what the last seed with its address asks for. */
  lemma {:induction false} LastSeedWins(
    verify: Verify, accounts: map<string, Account>, seeds: seq<Seed>, hashes: seq<Option<string>>, k: string)
    requires HashesVerify(verify, seeds, hashes) && Occurs(seeds, k)
    requires Upserted(verify, accounts, seeds, hashes).error.None?
    ensures k in Upserted(verify, accounts, seeds, hashes).accounts
    ensures Matches(verify, k, Upserted(verify, accounts, seeds, hashes).accounts[k], Last(seeds, k).rest)
    ensures var a := Upserted(verify, accounts, seeds, hashes).accounts[k];
      verify(a.hash, Last(seeds, k).rest.password) && a.allowed == Allowed(k, Last(seeds, k).rest.extra)
    decreases |seeds|
  {
    var n := |seeds| - 1;
    SplitLast(seeds);
    FirstIndexAppend(seeds[..n], seeds[n], k);
    LastAppend(seeds[..n], seeds[n], k);
    if Canon(seeds[n].key) == k {
      SeedWins(verify, Upserted(verify, accounts, seeds[..n], hashes[..n]), seeds[n], hashes[n]);
    } else {
      LastSeedWins(verify, accounts, seeds[..n], hashes[..n], k);
    }
  }

  lemma CreatedOne(verify: Verify, o: Outcome, seed: Seed, hash: Option<string>, k: string)
    requires UpsertOne(verify, o, seed, hash).error.None?
    ensures var o' := UpsertOne(verify, o, seed, hash);
      && (k in o'.summary.created <==> k in o.summary.created || (k == Canon(seed.key) && k !in o.accounts))
      && (k in o'.accounts <==> k in o.accounts || k == Canon(seed.key)) && o.error.None?
  {
  }

  /** A successful call reports as created exactly the seeded accounts the table did not have. */
  lemma {:induction false} CreatedExactly(
    verify: Verify, accounts: map<string, Account>, seeds: seq<Seed>, hashes: seq<Option<string>>, k: string)
    requires |hashes| == |seeds| && Upserted(verify, accounts, seeds, hashes).error.None?
    ensures k in Upserted(verify, accounts, seeds, hashes).summary.created <==> Occurs(seeds, k) && k !in accounts
    ensures k in Upserted(verify, accounts, seeds, hashes).accounts <==> Occurs(seeds, k) || k in accounts
    decreases |seeds|
  {
    if seeds != [] {
      var n := |seeds| - 1;
      SplitLast(seeds);
      FirstIndexAppend(seeds[..n], seeds[n], k);
      CreatedOne(verify, Upserted(verify, accounts, seeds[..n], hashes[..n]), seeds[n], hashes[n], k);
      CreatedExactly(verify, accounts, seeds[..n], hashes[..n], k);
    }
  }

  lemma SummaryOne(verify: Verify, o: Outcome, seed: Seed, hash: Option<string>)
    requires UpsertOne(verify, o, seed, hash).error.None?
    ensures var email, o' := Canon(seed.key), UpsertOne(verify, o, seed, hash);
      && Reported(o'.summary) == Reported(o.summary) + multiset{email}
      && o.error.None? && (o'.summary.same != o.summary.same ==> o'.accounts == o.accounts)
      && (o'.summary.updated != o.summary.updated ==> email in o.accounts && o'.accounts.Keys == o.accounts.Keys)
  {
  }

  /** All addresses of a summary. */
  function Reported(s: Summary): multiset<string> {
    multiset(s.created) + multiset(s.updated) + multiset(s.same)
  }

  lemma EmailsSplit(seeds: seq<Seed>)
    requires seeds != []
    ensures var n := |seeds| - 1;
      multiset(Emails(seeds)) == multiset(Emails(seeds[..n])) + multiset{Canon(seeds[n].key)}
  {
    assert Emails(seeds) == Emails(seeds[..|seeds| - 1]) + [Canon(seeds[|seeds| - 1].key)];
  }

  /** A successful call reports every seed once, as created, updated or unchanged. */
  lemma {:induction false} EverySeedReported(
    verify: Verify, accounts: map<string, Account>, seeds: seq<Seed>, hashes: seq<Option<string>>)
    requires |hashes| == |seeds| && Upserted(verify, accounts, seeds, hashes).error.None?
    ensures Reported(Upserted(verify, accounts, seeds, hashes).summary) == multiset(Emails(seeds))
    decreases |seeds|
  {
    if seeds != [] {
      var n := |seeds| - 1;
      var o := Upserted(verify, accounts, seeds[..n], hashes[..n]);
      assert Upserted(verify, accounts, seeds, hashes) == UpsertOne(verify, o, seeds[n], hashes[n]);
      SummaryOne(verify, o, seeds[n], hashes[n]);
      EverySeedReported(verify, accounts, seeds[..n], hashes[..n]);
      EmailsSplit(seeds);
    }
  }

  /** What is wrong with a seed that meets this table. */
  ghost predicate Faulty(verify: Verify, o: Outcome, seed: Seed, hash: Option<string>, e: Error) {
    var email := Canon(seed.key);
    match e
    case EmptyEmail => email == ""
    case EmptyPassword(m) => email == m != "" && seed.rest.password == ""
    case HashFailed(m) =>
      && email == m != "" && seed.rest.password != "" && hash.None?
      && !(m in o.accounts && verify(o.accounts[m].hash, seed.rest.password) &&
           o.accounts[m].allowed == Allowed(m, seed.rest.extra))
    case NotFound(_) => false
  }

  /** A call that fails stops at the first faulty seed and keeps what the seeds before it did. */
  lemma {:induction false} StopsAtFault(
    verify: Verify, accounts: map<string, Account>, seeds: seq<Seed>, hashes: seq<Option<string>>) returns (i: nat)
    requires |hashes| == |seeds| && Upserted(verify, accounts, seeds, hashes).error.Some?
    ensures i < |seeds|
    ensures
      var before, o :=
        Upserted(verify, accounts, seeds[..i], hashes[..i]), Upserted(verify, accounts, seeds, hashes);
      && before.error.None? && o.accounts == before.accounts && o.summary == before.summary
      && Faulty(verify, before, seeds[i], hashes[i], o.error.value)
    decreases |seeds|
  {
    var n := |seeds| - 1;
    if Upserted(verify, accounts, seeds[..n], hashes[..n]).error.Some? {
      i := StopsAtFault(verify, accounts, seeds[..n], hashes[..n]);
      assert seeds[..n][..i] == seeds[..i] && hashes[..n][..i] == hashes[..i];
    } else {
      i := n;
    }
  }

  // ---- Seeding again ----

  /** Seeds with one address all ask for what the last of them asks for. */
  ghost predicate Consistent(seeds: seq<Seed>) {
    forall i :: 0 <= i < |seeds| ==> AsLast(seeds, i)
  }

  ghost predicate AsLast(seeds: seq<Seed>, i: nat)
    requires i < |seeds|
  {
    var k := Canon(seeds[i].key);
    Occurs(seeds, k) &&
    seeds[i].rest.password == Last(seeds, k).rest.password &&
    Allowed(k, seeds[i].rest.extra) == Allowed(k, Last(seeds, k).rest.extra)
  }

  function Emails(seeds: seq<Seed>): seq<string> {
    seq(|seeds|, i requires 0 <= i < |seeds| => Canon(seeds[i].key))
  }

  /** The table already holds what every seed asks for. */
  predicate Settled(verify: Verify, accounts: map<string, Account>, seeds: seq<Seed>) {
    forall i :: 0 <= i < |seeds| ==> SettledAt(verify, accounts, seeds[i])
  }

  predicate SettledAt(verify: Verify, accounts: map<string, Account>, seed: Seed) {
    var k := Canon(seed.key);
    k != "" && seed.rest.password != "" && k in accounts && Matches(verify, k, accounts[k], seed.rest)
  }

  predicate AllUnchanged(accounts: map<string, Account>, seeds: seq<Seed>, o: Outcome) {
    o == Outcome(accounts, Summary([], [], Emails(seeds)), None)
  }

  /** A call leaves the table alone and reports every address unchanged iff the table is settled. */
  lemma {:induction false} UnchangedIffSettled(
    verify: Verify, accounts: map<string, Account>, seeds: seq<Seed>, hashes: seq<Option<string>>)
    requires |hashes| == |seeds|
    ensures AllUnchanged(accounts, seeds, Upserted(verify, accounts, seeds, hashes)) <==>
      Settled(verify, accounts, seeds)
    decreases |seeds|
  {
    if seeds != [] {
      var n := |seeds| - 1;
      var before := Upserted(verify, accounts, seeds[..n], hashes[..n]);
      UnchangedIffSettled(verify, accounts, seeds[..n], hashes[..n]);
      UnchangedShort(verify, accounts, seeds[..n], hashes[..n]);
      UnchangedOneMore(verify, accounts, seeds, before, hashes[n]);
    }
  }

  /** A turn adds at most one address to those reported unchanged. */
  lemma UnchangedOneMore(
    verify: Verify, accounts: map<string, Account>, seeds: seq<Seed>, before: Outcome, hash: Option<string>)
    requires seeds != [] && |before.summary.same| < |seeds|
    ensures AllUnchanged(accounts, seeds, UpsertOne(verify, before, seeds[|seeds| - 1], hash)) <==>
      AllUnchanged(accounts, seeds[..|seeds| - 1], before) && SettledAt(verify, accounts, seeds[|seeds| - 1])
  {
    var n := |seeds| - 1;
    var email := Canon(seeds[n].key);
    assert Emails(seeds) == Emails(seeds[..n]) + [email];
    assert |Emails(seeds)| == n + 1;
    AppendInjective(before.summary.same, Emails(seeds[..n]), email);
  }

  lemma AppendInjective(a: seq<string>, b: seq<string>, x: string)
    ensures a + [x] == b + [x] <==> a == b
  {
    if a + [x] == b + [x] {
      assert a == (a + [x])[..|a|] && b == (b + [x])[..|b|];
    }
  }

  lemma {:induction false} UnchangedShort(
    verify: Verify, accounts: map<string, Account>, seeds: seq<Seed>, hashes: seq<Option<string>>)
    requires |hashes| == |seeds|
    ensures |Upserted(verify, accounts, seeds, hashes).summary.same| <= |seeds|
    decreases |seeds|
  {
    if seeds != [] {
      var n := |seeds| - 1;
      UnchangedShort(verify, accounts, seeds[..n], hashes[..n]);
    }
  }

  /** A successful call met no empty address and no empty password. */
  lemma {:induction false} SuccessNonEmpty(
    verify: Verify, accounts: map<string, Account>, seeds: seq<Seed>, hashes: seq<Option<string>>, i: nat)
    requires |hashes| == |seeds| && i < |seeds|
    requires Upserted(verify, accounts, seeds, hashes).error.None?
    ensures Canon(seeds[i].key) != "" && seeds[i].rest.password != ""
    decreases |seeds|
  {
    var n := |seeds| - 1;
    if i < n {
      SuccessNonEmpty(verify, accounts, seeds[..n], hashes[..n], i);
    }
  }

  /** No hash verifies two passwords. */
  ghost predicate Discerning(verify: Verify) {
    forall h, p, q :: verify(h, p) && verify(h, q) ==> p == q
  }

  /**
   * Seeding again with the same seeds, from the table a successful call left, changes nothing and reports every
   * address unchanged if seeds that share an address ask for the same; when no hash verifies two passwords,
   * only if they do.
   */
  lemma SeedingIdempotentIff(
    verify: Verify, accounts: map<string, Account>, seeds: seq<Seed>,
    hashes: seq<Option<string>>, again: seq<Option<string>>)
    requires HashesVerify(verify, seeds, hashes) && |again| == |seeds|
    requires Upserted(verify, accounts, seeds, hashes).error.None?
    ensures
      var first := Upserted(verify, accounts, seeds, hashes).accounts;
      var settled := AllUnchanged(first, seeds, Upserted(verify, first, seeds, again));
      (Consistent(seeds) ==> settled) && (Discerning(verify) ==> (settled <==> Consistent(seeds)))
  {
    var first := Upserted(verify, accounts, seeds, hashes).accounts;
    UnchangedIffSettled(verify, first, seeds, again);
    forall i | 0 <= i < |seeds|
      ensures AsLast(seeds, i) ==> SettledAt(verify, first, seeds[i])
      ensures Discerning(verify) && SettledAt(verify, first, seeds[i]) ==> AsLast(seeds, i)
    {
      var k := Canon(seeds[i].key);
      LastSeedWins(verify, accounts, seeds, hashes, k);
      SuccessNonEmpty(verify, accounts, seeds, hashes, i);
    }
  }

  /** A list in which every address occurs once is consistent. */
  lemma DistinctConsistent(seeds: seq<Seed>)
    requires Distinct(Emails(seeds))
    ensures Consistent(seeds)
  {
    forall i | 0 <= i < |seeds| ensures AsLast(seeds, i) {
      OnlyLast(seeds, i);
    }
  }

  lemma {:induction false} OnlyLast(seeds: seq<Seed>, i: nat)
    requires Distinct(Emails(seeds)) && i < |seeds|
    ensures Occurs(seeds, Canon(seeds[i].key)) && Last(seeds, Canon(seeds[i].key)) == Normal(seeds[i])
    decreases |seeds|
  {
    var n, k := |seeds| - 1, Canon(seeds[i].key);
    if i < n {
      assert Emails(seeds)[i] != Emails(seeds)[n];
      assert forall a :: 0 <= a < n ==> Emails(seeds[..n])[a] == Emails(seeds)[a];
      OnlyLast(seeds[..n], i);
    }
  }

  /** Restarting with one configuration: the seeds it yields after de-duplication settle in the first run. */
  lemma RestartSettled(
    verify: Verify, accounts: map<string, Account>, entries: seq<Seed>, seeds: seq<Seed>,
    hashes: seq<Option<string>>, again: seq<Option<string>>)
    requires Merged(entries, seeds)
    requires HashesVerify(verify, seeds, hashes) && |again| == |seeds|
    requires Upserted(verify, accounts, seeds, hashes).error.None?
    ensures
      var first := Upserted(verify, accounts, seeds, hashes).accounts;
      AllUnchanged(first, seeds, Upserted(verify, first, seeds, again))
    ensures forall i :: 0 <= i < |seeds| ==> Occurs(entries, seeds[i].key) && seeds[i] == Last(entries, seeds[i].key)
  {
    forall i | 0 <= i < |seeds| ensures Canon(seeds[i].key) == seeds[i].key {
      CanonIdempotent(entries[FirstIndex(entries, seeds[i].key)].key);
    }
    forall i, j | 0 <= i < j < |seeds| ensures Emails(seeds)[i] != Emails(seeds)[j] {
      MergedDistinct(entries, seeds, i, j);
    }
    DistinctConsistent(seeds);
    SeedingIdempotentIff(verify, accounts, seeds, hashes, again);
  }

  // ---- The table ----

  class Directory {
    var accounts: map<string, Account>

    ghost predicate Valid()
      reads this
    {
      ValidAccounts(accounts)
    }

    constructor ()
      ensures Valid() && accounts == map[]
    {
      accounts := map[];
    }

    /** `hashes[i]` is what HashPassword gives for the i-th password, should the loop ask for it. */
    method UpsertAccounts(verify: Verify, seeds: seq<Seed>, hashes: seq<Option<string>>)
      returns (summary: Summary, error: Option<Error>)
      requires Valid() && |hashes| == |seeds|
      modifies this
      ensures Valid()
      ensures Outcome(accounts, summary, error) == Upserted(verify, old(accounts), seeds, hashes)
    {
      summary, error := Summary([], [], []), None;
      var i := 0;
      while i < |seeds| && error.None?
        invariant i <= |seeds| && Valid()
        invariant Outcome(accounts, summary, error) == Upserted(verify, old(accounts), seeds[..i], hashes[..i])
        decreases |seeds| - i, error.None?
      {
        ghost var before := Outcome(accounts, summary, error);
        assert seeds[..i + 1][..i] == seeds[..i] && hashes[..i + 1][..i] == hashes[..i];
        UpsertOneKeepsValid(verify, before, seeds[i], hashes[i]);
        summary, error := UpsertAccount(verify, seeds[i], hashes[i], summary);
        i := i + 1;
      }
      StoppedStays(verify, old(accounts), seeds, hashes, i);
    }

    /** The body of that loop for one seed. */
    method UpsertAccount(verify: Verify, seed: Seed, hash: Option<string>, before: Summary)
      returns (summary: Summary, error: Option<Error>)
      modifies this
      ensures Outcome(accounts, summary, error) == UpsertOne(verify, Outcome(old(accounts), before, None), seed, hash)
    {
      summary, error := before, None;
      var email, password := Canon(seed.key), seed.rest.password;
      if email == "" {
        return summary, Some(EmptyEmail);
      }
      if password == "" {
        return summary, Some(EmptyPassword(email));
      }
      var allowed := NormalizeList([email], seed.rest.extra);
      var found := email in accounts;
      if found && verify(accounts[email].hash, password) && accounts[email].allowed == allowed {
        summary := summary.(same := summary.same + [email]);
        return;
      }
      if hash.None? {
        return summary, Some(HashFailed(email));
      }
      accounts := accounts[email := Account(email, hash.value, allowed)];
      if found {
        summary := summary.(updated := summary.updated + [email]);
      } else {
        summary := summary.(created := summary.created + [email]);
      }
    }

    method UpdateAccount(address: string, extra: seq<string>, newPassword: string, hash: Option<string>)
      returns (error: Option<Error>)
      requires Valid()
      modifies this
      ensures Valid()
      ensures error == if Canon(address) !in old(accounts) then Some(NotFound(Canon(address)))
                       else if newPassword != "" && hash.None? then Some(HashFailed(Canon(address))) else None
      ensures error.Some? ==> accounts == old(accounts)
      ensures error.None? ==>
        && accounts.Keys == old(accounts).Keys
        && (forall k :: k in accounts && k != Canon(address) ==> accounts[k] == old(accounts)[k])
        && accounts[Canon(address)].hash ==
           (if newPassword != "" then hash.value else old(accounts)[Canon(address)].hash)
        && (forall f :: f in accounts[Canon(address)].allowed <==> f == Canon(address) || Asks(extra, f))
    {
      var email := Canon(address);
      if email !in accounts {
        return Some(NotFound(email));
      }
      var allowed := NormalizeList([email], extra);
      AllowedProper(email, extra);
      forall f ensures f in allowed <==> f == email || Asks(extra, f) { AllowedExactly(email, extra, f); }
      if newPassword != "" {
        if hash.None? {
          return Some(HashFailed(email));
        }
        accounts := accounts[email := Account(email, hash.value, allowed)];
        return None;
      }
      accounts := accounts[email := accounts[email].(allowed := allowed)];
      return None;
    }
  }

  /** Once the loop has stopped with an error the remaining seeds change nothing. */
  lemma {:induction false} StoppedStays(
    verify: Verify, accounts: map<string, Account>, seeds: seq<Seed>, hashes: seq<Option<string>>, i: nat)
    requires |hashes| == |seeds| && i <= |seeds|
    requires i == |seeds| || Upserted(verify, accounts, seeds[..i], hashes[..i]).error.Some?
    ensures Upserted(verify, accounts, seeds, hashes) == Upserted(verify, accounts, seeds[..i], hashes[..i])
    decreases |seeds|
  {
    var n := |seeds| - 1;
    if i == |seeds| {
      assert seeds[..i] == seeds && hashes[..i] == hashes;
    } else {
      assert seeds[..n][..i] == seeds[..i] && hashes[..n][..i] == hashes[..i];
      StoppedStays(verify, accounts, seeds[..n], hashes[..n], i);
    }
  }
}
