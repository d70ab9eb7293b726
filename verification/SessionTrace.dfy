/**
 Where the entries of a session log come from: which commands logged somebody in, and which commands a queued message
 was made of.
 */
module SessionTrace {
  import opened Wrappers
  import opened Text
  import opened Session

  /** The commands a connection has read so far, and the states in front of and behind each of them. */
  datatype Trace = Trace(commands: seq<Command>, states: seq<State>)

  ghost predicate StepAt(s: Setting, t: Trace, k: nat)
    requires |t.states| == |t.commands| + 1 && k < |t.commands|
  {
    t.states[k + 1] == After(s, t.states[k], t.commands[k])
  }

  ghost predicate ClosesAt(s: Setting, t: Trace, k: nat)
    requires |t.states| == |t.commands| + 1 && k < |t.commands|
  {
    Closes(s, t.states[k], t.commands[k])
  }

  /** Only the last command may have closed the connection. */
  ghost predicate IsTrace(s: Setting, t: Trace) {
    && |t.states| == |t.commands| + 1 && t.states[0] == Start(s)
    && (forall k :: 0 <= k < |t.commands| ==> StepAt(s, t, k))
    && (forall k :: 0 <= k < |t.commands| - 1 ==> !ClosesAt(s, t, k))
  }

  function LastState(t: Trace): State
    requires t.states != []
  {
    t.states[|t.states| - 1]
  }

  lemma Extend(s: Setting, t: Trace, c: Command) returns (t': Trace)
    requires IsTrace(s, t)
    requires t.commands != [] ==> !ClosesAt(s, t, |t.commands| - 1)
    ensures t' == Trace(t.commands + [c], t.states + [After(s, LastState(t), c)]) && IsTrace(s, t')
  {
    var st := After(s, LastState(t), c);
    t' := Trace(t.commands + [c], t.states + [st]);
    forall k | 0 <= k < |t'.commands| ensures StepAt(s, t', k) {
      assert t'.states[k] == t.states[k];
      if k < |t.commands| {
        assert StepAt(s, t, k) && t'.states[k + 1] == t.states[k + 1] && t'.commands[k] == t.commands[k];
      } else {
        assert t'.states[k + 1] == st && t'.commands[k] == c && t.states[k] == LastState(t);
      }
    }
    forall k | 0 <= k < |t'.commands| - 1 ensures !ClosesAt(s, t', k) {
      assert t'.states[k] == t.states[k] && t'.commands[k] == t.commands[k] && !ClosesAt(s, t, k);
    }
  }

  lemma {:induction false} ServedFrom(s: Setting, t: Trace, rest: seq<Command>) returns (t': Trace)
    requires IsTrace(s, t)
    requires t.commands != [] ==> !ClosesAt(s, t, |t.commands| - 1)
    ensures IsTrace(s, t') && t'.commands <= t.commands + rest && LastState(t') == AfterAll(s, LastState(t), rest)
    decreases |rest|
  {
    if rest == [] {
      t' := t;
    } else {
      var t1 := Extend(s, t, rest[0]);
      assert t1.commands + rest[1..] == t.commands + rest;
      if Closes(s, LastState(t), rest[0]) {
        t' := t1;
      } else {
        t' := ServedFrom(s, t1, rest[1..]);
      }
    }
  }

  /** A connection reads its commands up to the first that closes it, and ends in the state behind that. */
  lemma Served(s: Setting, commands: seq<Command>) returns (t: Trace)
    ensures IsTrace(s, t) && t.commands <= commands && LastState(t) == AfterAll(s, Start(s), commands)
  {
    t := ServedFrom(s, Trace([], [Start(s)]), commands);
    assert [] + commands == commands;
  }

  // ---- Logins ----

  /** The credentials of an AUTH command prove account `a`: it is looked up, and its hash verifies the password. */
  ghost predicate Proves(s: Setting, c: Command, a: Account) {
    && ToLower(c.word) == "auth" && c.world.login.Given? && !c.world.lookupFails
    && var key := Canon(c.world.login.login);
       key in c.world.accounts && c.world.accounts[key] == a && s.verify(a.hash, c.world.login.password)
  }

  /** A login is possible in this state, by AUTH LOGIN or AUTH PLAIN. */
  ghost predicate MayProve(s: Setting, st: State, c: Command) {
    st.user == None && (!s.requireTLS || st.tlsOn || s.loopback) && Mechanism(c.arg)
  }

  /** What one command adds to the log. */
  ghost predicate Adds(s: Setting, st: State, c: Command, e: Entry) {
    match e
    case LoggedIn(a, tlsOn) => Proves(s, c, a) && MayProve(s, st, c) && tlsOn == st.tlsOn
    case Queued(a, sender, rcpts) =>
      && ToLower(c.word) == "data" && c.world.reading == Complete && c.world.queueTakes
      && st.user == Some(a) && st.sender == sender != "" && st.rcpts == rcpts != []
  }

  /** A command adds an entry exactly when it is one of these, and at most one. */
  lemma OneEntry(s: Setting, st: State, c: Command)
    ensures After(s, st, c).log == st.log || (exists e :: Adds(s, st, c, e) && After(s, st, c).log == st.log + [e])
    ensures forall e :: Adds(s, st, c, e) ==> After(s, st, c).log == st.log + [e]
  {
    var log := After(s, st, c).log;
    if log != st.log {
      var e := log[|log| - 1];
      assert Adds(s, st, c, e) && log == st.log + [e];
    }
  }

  /** A successful login: the account becomes the user, a wrong password does not. */
  lemma LoginIff(s: Setting, st: State, c: Command, a: Account)
    requires ToLower(c.word) == "auth" && MayProve(s, st, c) && c.world.login.Given?
    ensures After(s, st, c).user == Some(a) <==> Proves(s, c, a)
    ensures Proves(s, c, a) ==>
      After(s, st, c) == st.(sender := "", rcpts := [], user := Some(a), log := st.log + [LoggedIn(a, st.tlsOn)])
  {
  }

  /** TLS is on from the start, or since a STARTTLS command whose handshake succeeded. */
  ghost predicate TlsSince(s: Setting, commands: seq<Command>, k: nat)
    requires k <= |commands|
  {
    s.tls == Implicit || (s.tls == StartTls && exists j :: 0 <= j < k && Handshaken(commands[j]))
  }

  ghost predicate Handshaken(c: Command) {
    ToLower(c.word) == "starttls" && c.world.handshake
  }

  lemma {:induction false} TlsProven(s: Setting, t: Trace, k: nat)
    requires IsTrace(s, t) && k <= |t.commands| && t.states[k].tlsOn
    ensures TlsSince(s, t.commands, k)
    decreases k
  {
    if k > 0 {
      assert StepAt(s, t, k - 1);
      if t.states[k - 1].tlsOn {
        TlsProven(s, t, k - 1);
      } else {
        TlsStarts(s, t.states[k - 1], t.commands[k - 1]);
      }
    }
  }

  lemma TlsStarts(s: Setting, st: State, c: Command)
    requires !st.tlsOn && After(s, st, c).tlsOn
    ensures s.tls == StartTls && Handshaken(c)
  {
  }

  lemma EntryOf(s: Setting, t: Trace, k: nat)
    requires IsTrace(s, t) && k < |t.commands|
    ensures var log, log' := t.states[k].log, t.states[k + 1].log;
      log' == log || (|log'| == |log| + 1 && log == log'[..|log|] && Adds(s, t.states[k], t.commands[k], log'[|log|]))
  {
    assert StepAt(s, t, k);
    OneEntry(s, t.states[k], t.commands[k]);
  }

  /** Entry `i` of the log after `n` commands was added by one of them. */
  lemma {:induction false} AddedBy(s: Setting, t: Trace, n: nat, i: nat) returns (k: nat)
    requires IsTrace(s, t) && n <= |t.commands| && i < |t.states[n].log|
    ensures k < n && |t.states[k].log| == i && Adds(s, t.states[k], t.commands[k], t.states[n].log[i])
    decreases n
  {
    EntryOf(s, t, n - 1);
    if i < |t.states[n - 1].log| {
      k := AddedBy(s, t, n - 1, i);
    } else {
      k := n - 1;
    }
  }

  /**
   Whoever appears as logged in gave the password: among the commands the connection read there is an AUTH command whose
   credentials prove the account, in a state that permits a login; and if the entry says TLS, then TLS was on.
   */
  lemma LoginProven(s: Setting, commands: seq<Command>, i: nat) returns (k: nat)
    requires var log := AfterAll(s, Start(s), commands).log; i < |log| && log[i].LoggedIn?
    ensures var e := AfterAll(s, Start(s), commands).log[i];
      && k < |commands| && Proves(s, commands[k], e.account)
      && (!s.requireTLS || e.tlsOn || s.loopback) && (e.tlsOn ==> TlsSince(s, commands, k))
  {
    var t := Served(s, commands);
    k := AddedBy(s, t, |t.commands|, i);
    assert t.commands[k] == commands[k];
    if t.states[k].tlsOn {
      TlsProven(s, t, k);
      assert forall j :: 0 <= j < k ==> t.commands[j] == commands[j];
    }
  }

  // ---- Messages ----

  /** A MAIL command takes effect in its state. */
  ghost predicate Mails(s: Setting, st: State, c: Command) {
    ToLower(c.word) == "mail" && TakesMail(s, st, c.arg, c.world)
  }

  /** The recipient a RCPT command adds, if it takes effect. */
  function RcptOf(s: Setting, st: State, c: Command): seq<string> {
    if ToLower(c.word) == "rcpt" && TakesRcpt(s, st, c.arg) then [Canon(EnvelopeAddr(c.arg[3..]))] else []
  }

  /** The recipients that RCPT commands from the j-th on to the k-th added, in order. */
  function Named(s: Setting, t: Trace, j: nat, k: nat): seq<string>
    requires |t.states| == |t.commands| + 1 && k <= |t.commands|
    decreases k
  {
    if k <= j then [] else Named(s, t, j, k - 1) + RcptOf(s, t.states[k - 1], t.commands[k - 1])
  }

  ghost predicate MailsAt(s: Setting, t: Trace, x: nat)
    requires |t.states| == |t.commands| + 1 && x < |t.commands|
  {
    Mails(s, t.states[x], t.commands[x])
  }

  /** No MAIL command takes effect from the j-th command on to the k-th. */
  ghost predicate NoMail(s: Setting, t: Trace, j: nat, k: nat)
    requires |t.states| == |t.commands| + 1 && k <= |t.commands|
  {
    j < k ==> !MailsAt(s, t, k - 1) && NoMail(s, t, j, k - 1)
  }

  /** The address a MAIL command names. */
  function SenderOf(c: Command): string {
    if |c.arg| < 5 then "" else Canon(EnvelopeAddr(c.arg[5..]))
  }

  /** The envelope in front of the k-th command was begun by the j-th and is what the commands since added. */
  ghost predicate BegunBy(s: Setting, t: Trace, j: nat, k: nat)
    requires |t.states| == |t.commands| + 1 && k <= |t.commands|
  {
    && j < k && MailsAt(s, t, j) && NoMail(s, t, j + 1, k)
    && t.states[k].sender == SenderOf(t.commands[j]) && t.states[k].rcpts == Named(s, t, j + 1, k)
  }

  /** What a command that is not an effective MAIL does to an envelope: drop it, or leave the sender. */
  lemma EnvelopeStep(s: Setting, st: State, c: Command)
    requires Sound(s, st) && !Mails(s, st, c) && After(s, st, c).sender != ""
    ensures After(s, st, c).sender == st.sender
    ensures After(s, st, c).rcpts == st.rcpts + RcptOf(s, st, c)
  {
    if VerbOf(c.word) == Rcpt {
      assert ToLower(c.word) == "rcpt" && After(s, st, c) == AfterRcpt(s, st, c.arg);
    } else {
      assert ToLower(c.word) != "rcpt";
      EnvelopeStays(s, st, c);
    }
  }

  lemma EnvelopeStays(s: Setting, st: State, c: Command)
    requires Sound(s, st) && !Mails(s, st, c) && VerbOf(c.word) != Rcpt && After(s, st, c).sender != ""
    ensures After(s, st, c).sender == st.sender && After(s, st, c).rcpts == st.rcpts
  {
    match VerbOf(c.word)
    case Mail =>
      assert ToLower(c.word) == "mail";
      MailStays(s, st, c.arg, c.world);
    case Auth => AuthStays(s, st, c.arg, c.world);
    case Data => DataStays(st, c.world);
    case _ =>
  }

  lemma MailStays(s: Setting, st: State, arg: string, w: World)
    requires !TakesMail(s, st, arg, w)
    ensures AfterMail(s, st, arg, w) == st
  {
  }

  lemma AuthStays(s: Setting, st: State, arg: string, w: World)
    requires Sound(s, st) && AfterAuth(s, st, arg, w).sender != ""
    ensures AfterAuth(s, st, arg, w) == st
  {
  }

  lemma DataStays(st: State, w: World)
    requires AfterData(st, w).sender != ""
    ensures AfterData(st, w) == st
  {
  }

  lemma EnvelopeBegins(s: Setting, st: State, c: Command)
    requires Mails(s, st, c)
    ensures After(s, st, c).sender == SenderOf(c) && After(s, st, c).rcpts == []
  {
    assert VerbOf(c.word) == Mail && After(s, st, c) == AfterMail(s, st, c.arg, c.world);
    MailActs(s, st, c.arg, c.world);
  }

  lemma MailActs(s: Setting, st: State, arg: string, w: World)
    requires TakesMail(s, st, arg, w)
    ensures AfterMail(s, st, arg, w) == st.(sender := Canon(EnvelopeAddr(arg[5..])), rcpts := [])
  {
  }

  lemma {:induction false} SoundAt(s: Setting, t: Trace, k: nat)
    requires IsTrace(s, t) && k <= |t.commands|
    ensures Sound(s, t.states[k])
    decreases k
  {
    if k > 0 {
      SoundAt(s, t, k - 1);
      assert StepAt(s, t, k - 1);
      CommandKeepsSound(s, t.states[k - 1], t.commands[k - 1]);
    }
  }

  lemma {:induction false} EnvelopeBegun(s: Setting, t: Trace, k: nat) returns (j: nat)
    requires IsTrace(s, t) && k <= |t.commands| && t.states[k].sender != ""
    ensures BegunBy(s, t, j, k)
    decreases k
  {
    assert k > 0 && StepAt(s, t, k - 1);
    if MailsAt(s, t, k - 1) {
      EnvelopeBegins(s, t.states[k - 1], t.commands[k - 1]);
      j := k - 1;
    } else {
      SoundAt(s, t, k - 1);
      EnvelopeStep(s, t.states[k - 1], t.commands[k - 1]);
      j := EnvelopeBegun(s, t, k - 1);
    }
  }

  /**
   A queued message is what the client said: its sender is that of the last effective MAIL command before an effective
   DATA command, and its recipients are the addresses of exactly the RCPT commands that took effect in between, in
   order.
   */
  lemma MessageTraced(s: Setting, commands: seq<Command>, i: nat) returns (t: Trace, j: nat, k: nat)
    requires var log := AfterAll(s, Start(s), commands).log; i < |log| && log[i].Queued?
    ensures IsTrace(s, t) && t.commands <= commands && j < k < |t.commands| && BegunBy(s, t, j, k)
    ensures var e, c := AfterAll(s, Start(s), commands).log[i], commands[k];
      && ToLower(c.word) == "data" && c.world.reading == Complete && c.world.queueTakes
      && e.sender == SenderOf(commands[j]) && e.rcpts == Named(s, t, j + 1, k)
  {
    t := Served(s, commands);
    k := AddedBy(s, t, |t.commands|, i);
    j := EnvelopeBegun(s, t, k);
    assert t.commands[k] == commands[k] && t.commands[j] == commands[j];
  }

  // ---- Addresses ----

  /** The address of an argument: what stands between the angle brackets. */
  lemma BracketLaw(addr: string, params: string)
    requires '>' !in addr && (params == "" || !White(params[|params| - 1]))
    ensures EnvelopeAddr("<" + addr + ">" + params) == addr
  {
    var s := "<" + addr + ">" + params;
    assert s[0] == '<' && s[|s| - 1] == if params == "" then '>' else params[|params| - 1];
    TrimLaw([], s, []);
    assert [] + s + [] == s && s[1..] == addr + ">" + params;
    UpToLaw(addr, '>', params);
  }

  /** Without brackets it is the first word. */
  lemma WordLaw(addr: string, params: string)
    requires addr != "" && addr[0] != '<' && forall i :: 0 <= i < |addr| ==> !White(addr[i])
    requires params == "" || (White(params[0]) && !White(params[|params| - 1]))
    ensures EnvelopeAddr(addr + params) == addr
  {
    var s := addr + params;
    assert s[0] == addr[0] && s[|s| - 1] == if params == "" then addr[|addr| - 1] else params[|params| - 1];
    TrimLaw([], s, []);
    assert [] + s + [] == s;
    FieldLaw(addr, params);
  }

  lemma {:induction false} FieldLaw(addr: string, params: string)
    requires (forall i :: 0 <= i < |addr| ==> !White(addr[i])) && (params == "" || White(params[0]))
    ensures FirstField(addr + params) == addr
  {
    var s := addr + params;
    if addr == [] {
      assert s == params;
    } else {
      assert s[0] == addr[0] && !IsSpace(s[0]) && s[1..] == addr[1..] + params;
      FieldLaw(addr[1..], params);
    }
  }

  /** AUTH takes the mechanisms LOGIN and PLAIN, and credentials in the command with PLAIN only. */
  lemma MechanismLaw(word: string, credentials: string)
    requires word != "" && (forall i :: 0 <= i < |word| ==> !White(word[i]))
    requires credentials != "" && (forall i :: 0 <= i < |credentials| ==> !White(credentials[i]))
    ensures Mechanism(word) <==> ToLower(word) in ["login", "plain"]
    ensures Mechanism(word + " " + credentials) <==> ToLower(word) == "plain"
  {
    FoldedNames();
    OneWord(word);
    TwoWords(word, credentials);
  }

  lemma FoldedNames()
    ensures ToLower("LOGIN") == "login" && ToLower("PLAIN") == "plain"
  {
  }

  lemma OneWord(word: string)
    requires word != "" && (forall i :: 0 <= i < |word| ==> !White(word[i]))
    ensures TrimSpace(word) == word && FirstField(word) == word
  {
    TrimLaw([], word, []);
    assert [] + word + [] == word;
    FieldLaw(word, []);
    assert word + [] == word;
  }

  lemma TwoWords(word: string, credentials: string)
    requires word != "" && (forall i :: 0 <= i < |word| ==> !White(word[i]))
    requires credentials != "" && (forall i :: 0 <= i < |credentials| ==> !White(credentials[i]))
    ensures var arg := word + " " + credentials;
      && TrimSpace(arg) == arg && FirstField(arg) == word && TrimLeft(arg[|word|..]) == credentials
      && FirstField(credentials) == credentials && |ToLower(arg)| == |arg| && ToLower(arg)[|word|] == ' '
  {
    var arg, n := word + " " + credentials, |word|;
    assert arg == word + (" " + credentials) && [] + arg + [] == arg;
    assert arg[0] == word[0] && arg[|arg| - 1] == credentials[|credentials| - 1] && arg[n] == ' ';
    TrimLaw([], arg, []);
    FieldLaw(word, " " + credentials);
    assert arg[n..] == " " + credentials;
    TrimLeftOf(" ", credentials);
    OneWord(credentials);
    LowerLaw(arg, n);
  }

  lemma {:induction false} UpToLaw(front: string, c: char, back: string)
    requires c !in front
    ensures UpTo(front + [c] + back, c) == front
  {
    var s := front + [c] + back;
    if front == [] {
      assert s[0] == c;
    } else {
      assert s[0] == front[0] && s[1..] == front[1..] + [c] + back;
      UpToLaw(front[1..], c, back);
    }
  }

  /** Valid is exactly an address with something on both sides of an '@' and no blank, bracket or parenthesis. */
  lemma ValidLaw(local: string, d: string)
    requires '@' !in d
    ensures ValidAddr(local + "@" + d) <==>
      local != "" && d != "" && forall c :: c in local || c in d ==> c !in " \t<>()"
  {
    LastIndexLaw(local, '@', d);
    var addr := local + "@" + d;
    assert forall c :: c in addr <==> c in local || c == '@' || c in d;
  }

  lemma InvalidLaw(addr: string)
    requires '@' !in addr
    ensures !ValidAddr(addr)
  {
  }
}
