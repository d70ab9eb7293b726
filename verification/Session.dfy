/** One SMTP submission connection (smtpConn of internal/smtpd/session.go), with its log of logins and messages. */
module Session {
  import opened Wrappers
  import opened Text
  import Accounts

  type Account = Accounts.Account

  /** What the client sends in an AUTH exchange, decoded. */
  datatype Login = Unread | Malformed | OtherIdentity | Given(login: string, password: string)

  /** How reading the message body ended. */
  datatype Reading = ReadFails | TooLarge | Complete

  /** Everything a command meets outside the session: the account table, the peer and the queue. */
  datatype World = World(
    accounts: map<string, Account>, lookupFails: bool, login: Login, handshake: bool,
    declaredSize: int, reading: Reading, queueTakes: bool)

  datatype Command = Command(word: string, arg: string, world: World)

  datatype TlsMode = NoTls | StartTls | Implicit

  /** Fixed for a connection. */
  datatype Setting = Setting(
    requireTLS: bool, tls: TlsMode, loopback: bool, maxRecipients: int, maxMessageSize: int,
    verify: (string, string) -> bool)

  /** The log: successful logins, with their circumstances, and queued messages. */
  datatype Entry =
    | LoggedIn(account: Account, tlsOn: bool)
    | Queued(account: Account, sender: string, rcpts: seq<string>)

  predicate SameFold(a: string, b: string) {
    ToLower(a) == ToLower(b)
  }

  predicate HasPrefixFold(s: string, prefix: string) {
    |prefix| <= |s| && SameFold(s[..|prefix|], prefix)
  }

  /** What comes before the first `c`, or everything. */
  function UpTo(s: string, c: char): (r: string)
    ensures r <= s && c !in r && (r == s || s[|r|] == c)
  {
    if s == [] || s[0] == c then [] else [s[0]] + UpTo(s[1..], c)
  }

  /** The first of the fields of a string without leading blanks. */
  function FirstField(s: string): (f: string)
    ensures |f| <= |s|
  {
    if s == [] || IsSpace(s[0]) then [] else [s[0]] + FirstField(s[1..])
  }

  /** The address of a MAIL or RCPT argument, with or without angle brackets. */
  function EnvelopeAddr(s: string): string {
    var t := TrimSpace(s);
    if t != [] && t[0] == '<' then
      UpTo(t[1..], '>')
    else
      FirstField(t)
  }

  predicate ValidAddr(addr: string) {
    var at := LastIndexOf(addr, '@');
    0 < at < |addr| - 1 && forall c :: c in addr ==> c !in " \t<>()"
  }

  predicate AuthAllowed(s: Setting, tlsOn: bool) {
    !s.requireTLS || tlsOn || s.loopback
  }

  /** A login the server could permit, and a message it could accept right after it. */
  ghost predicate GoodLogin(s: Setting, e: Entry) {
    e.LoggedIn? && (!s.requireTLS || e.tlsOn || s.loopback)
  }

  ghost predicate GoodMessage(s: Setting, e: Entry) {
    && e.Queued? && e.sender in e.account.allowed && ValidAddr(e.sender)
    && 1 <= |e.rcpts| <= s.maxRecipients && forall r :: r in e.rcpts ==> ValidAddr(r)
  }

  ghost predicate SafeAt(s: Setting, log: seq<Entry>, i: nat)
    requires i < |log|
  {
    if log[i].LoggedIn? then GoodLogin(s, log[i])
    else GoodMessage(s, log[i]) && 0 < i && log[i - 1].LoggedIn? && log[i - 1].account == log[i].account
  }

  /** Every login was permitted, and every message comes straight after a login by the account it is sent for. */
  ghost predicate SafeLog(s: Setting, log: seq<Entry>) {
    forall i :: 0 <= i < |log| ==> SafeAt(s, log, i)
  }

  lemma LogGrows(s: Setting, log: seq<Entry>, e: Entry)
    requires SafeLog(s, log) && SafeAt(s, log + [e], |log|)
    ensures SafeLog(s, log + [e])
  {
    forall i | 0 <= i < |log + [e]| ensures SafeAt(s, log + [e], i) {
      if i < |log| { assert SafeAt(s, log, i); }
    }
  }

  /** Between two queued messages there is a fresh, permitted login by the account of the second. */
  lemma FreshLoginBetween(s: Setting, log: seq<Entry>, i: nat, j: nat)
    requires SafeLog(s, log) && i < j < |log| && log[i].Queued? && log[j].Queued?
    ensures exists k :: i < k < j && GoodLogin(s, log[k]) && log[k].account == log[j].account
  {
    assert SafeAt(s, log, j) && SafeAt(s, log, j - 1);
    assert GoodLogin(s, log[j - 1]);
  }

  /** The state of a connection; `log` is kept for the statements below. */
  datatype State = State(
    helo: string, sender: string, rcpts: seq<string>, user: Option<Account>, tlsOn: bool, log: seq<Entry>)

  function Start(s: Setting): State {
    State("", "", [], None, s.tls == Implicit, [])
  }

  /** The envelope is forgotten, and on request the login too. */
  function Cleared(st: State, clearAuth: bool): State {
    st.(sender := "", rcpts := [], user := if clearAuth then None else st.user)
  }

  function AfterGreeting(st: State, arg: string): State {
    if arg == "" then st else Cleared(st.(helo := arg), false)
  }

  /** STARTTLS keeps the login and drops the transaction. */
  function AfterStartTLS(s: Setting, st: State, w: World): State {
    if s.tls == StartTls && !st.tlsOn && w.handshake then Cleared(st.(tlsOn := true, helo := ""), false) else st
  }

  /** AUTH LOGIN, AUTH PLAIN and AUTH PLAIN with its credentials inline. */
  predicate Mechanism(arg: string) {
    SameFold(arg, "LOGIN") || SameFold(arg, "PLAIN") ||
    (var f := FirstField(TrimSpace(arg));
     SameFold(f, "PLAIN") &&
     var rest := TrimLeft(TrimSpace(arg)[|f|..]);
     rest != [] && FirstField(rest) == rest)
  }

  /** The account a login attempt proves to be, if any. */
  function Proven(s: Setting, login: string, password: string, w: World): Option<Account> {
    var key := Canon(login);
    if !w.lookupFails && key in w.accounts && s.verify(w.accounts[key].hash, password)
    then Some(w.accounts[key]) else None
  }

  function AfterAttempt(s: Setting, st: State, login: string, password: string, w: World): State {
    var user := Proven(s, login, password, w);
    Cleared(st, false).(user := user, log := if user.Some? then st.log + [LoggedIn(user.value, st.tlsOn)] else st.log)
  }

  /** A second login needs a reset first; a first one needs TLS, a local peer or a lax server. */
  predicate MayLogIn(s: Setting, st: State, arg: string) {
    st.user == None && AuthAllowed(s, st.tlsOn) && Mechanism(arg)
  }

  function AfterAuth(s: Setting, st: State, arg: string, w: World): State {
    if MayLogIn(s, st, arg) && w.login.Given? then AfterAttempt(s, st, w.login.login, w.login.password, w) else st
  }

  /** The sender a MAIL command may set. */
  predicate SenderOk(s: Setting, a: Account, addr: string, w: World) {
    ValidAddr(addr) && addr in a.allowed && (w.declaredSize <= 0 || w.declaredSize <= s.maxMessageSize)
  }

  function AfterMail(s: Setting, st: State, arg: string, w: World): State {
    if st.user.Some? && HasPrefixFold(arg, "FROM:") && SenderOk(s, st.user.value, Canon(EnvelopeAddr(arg[5..])), w)
    then st.(sender := Canon(EnvelopeAddr(arg[5..])), rcpts := []) else st
  }

  function AfterRcpt(s: Setting, st: State, arg: string): State {
    if st.sender != "" && |st.rcpts| < s.maxRecipients && HasPrefixFold(arg, "TO:") &&
       ValidAddr(Canon(EnvelopeAddr(arg[3..])))
    then st.(rcpts := st.rcpts + [Canon(EnvelopeAddr(arg[3..]))]) else st
  }

  /** A MAIL command takes effect: a login, a valid sender the account allows, and a declared size within the limit. */
  predicate TakesMail(s: Setting, st: State, arg: string, w: World) {
    && st.user.Some? && |arg| >= 5 && ToLower(arg[..5]) == "from:"
    && var addr := Canon(EnvelopeAddr(arg[5..]));
       ValidAddr(addr) && addr in st.user.value.allowed && !(w.declaredSize > 0 && w.declaredSize > s.maxMessageSize)
  }

  /** A RCPT command takes effect: a sender is set, there is room, and the recipient is valid. */
  predicate TakesRcpt(s: Setting, st: State, arg: string) {
    && st.sender != "" && |st.rcpts| < s.maxRecipients && |arg| >= 3 && ToLower(arg[..3]) == "to:"
    && ValidAddr(Canon(EnvelopeAddr(arg[3..])))
  }

  predicate MaySend(st: State) {
    st.user.Some? && st.sender != "" && st.rcpts != []
  }

  /** Whenever the body was read to its end the login is used up, whether the message was queued or not. */
  function AfterData(st: State, w: World): State {
    if !MaySend(st) || w.reading == ReadFails then st
    else if w.reading == Complete && w.queueTakes then
      Cleared(st.(log := st.log + [Queued(st.user.value, st.sender, st.rcpts)]), true)
    else Cleared(st, true)
  }

  /** HELO and EHLO differ in their answers only, and so do NOOP, VRFY, EXPN, HELP, BDAT and unknown verbs. */
  datatype Verb = Greeting | Auth | Mail | Rcpt | Data | Rset | Quit | StartTlsVerb | Other

  function VerbOf(word: string): Verb {
    var v := ToLower(word);
    if v == "helo" || v == "ehlo" then Greeting
    else if v == "auth" then Auth
    else if v == "mail" then Mail
    else if v == "rcpt" then Rcpt
    else if v == "data" then Data
    else if v == "rset" then Rset
    else if v == "quit" then Quit
    else if v == "starttls" then StartTlsVerb
    else Other
  }

  function After(s: Setting, st: State, c: Command): State {
    match VerbOf(c.word)
    case Greeting => AfterGreeting(st, c.arg)
    case Auth => AfterAuth(s, st, c.arg, c.world)
    case Mail => AfterMail(s, st, c.arg, c.world)
    case Rcpt => AfterRcpt(s, st, c.arg)
    case Data => AfterData(st, c.world)
    case Rset => Cleared(st, true)
    case StartTlsVerb => AfterStartTLS(s, st, c.world)
    case _ => st
  }

  /** QUIT, or a connection lost in the middle of AUTH. */
  predicate Closes(s: Setting, st: State, c: Command) {
    VerbOf(c.word) == Quit || (VerbOf(c.word) == Auth && MayLogIn(s, st, c.arg) && c.world.login == Unread)
  }

  function AfterAll(s: Setting, st: State, commands: seq<Command>): State
    decreases |commands|
  {
    if commands == [] then st
    else if Closes(s, st, commands[0]) then After(s, st, commands[0])
    else AfterAll(s, After(s, st, commands[0]), commands[1..])
  }

  /** The verbs by their names, in whatever case. */
  lemma VerbLaw(s: Setting, st: State, c: Command)
    ensures ToLower(c.word) == "quit" ==> Closes(s, st, c) && After(s, st, c) == st
    ensures ToLower(c.word) == "rset" ==> !Closes(s, st, c) && After(s, st, c) == Cleared(st, true)
    ensures ToLower(c.word) in ["helo", "ehlo"] && c.arg != "" ==>
      !Closes(s, st, c) && After(s, st, c) == Cleared(st.(helo := c.arg), false)
    ensures ToLower(c.word) !in ["helo", "ehlo", "auth", "mail", "rcpt", "data", "rset", "quit", "starttls"] ==>
      !Closes(s, st, c) && After(s, st, c) == st
  {
  }

  /** The last entry is a login of the account. */
  predicate LastIs(log: seq<Entry>, a: Account)
    requires log != []
  {
    log[|log| - 1].LoggedIn? && log[|log| - 1].account == a
  }

  /** What every command keeps. */
  ghost predicate Sound(s: Setting, st: State) {
    && SafeLog(s, st.log)
    && (st.user.Some? ==> st.log != [] && LastIs(st.log, st.user.value))
    && (st.sender != "" ==> st.user.Some? && st.sender in st.user.value.allowed && ValidAddr(st.sender))
    && (st.rcpts != [] ==> st.sender != "" && |st.rcpts| <= s.maxRecipients)
    && (forall r :: r in st.rcpts ==> ValidAddr(r))
  }

  lemma AttemptKeepsSound(s: Setting, st: State, login: string, password: string, w: World)
    requires Sound(s, st) && AuthAllowed(s, st.tlsOn)
    ensures Sound(s, AfterAttempt(s, st, login, password, w))
  {
    var user := Proven(s, login, password, w);
    if user.Some? { LogGrows(s, st.log, LoggedIn(user.value, st.tlsOn)); }
  }

  lemma AuthKeepsSound(s: Setting, st: State, arg: string, w: World)
    requires Sound(s, st)
    ensures Sound(s, AfterAuth(s, st, arg, w))
  {
    if MayLogIn(s, st, arg) && w.login.Given? {
      AttemptKeepsSound(s, st, w.login.login, w.login.password, w);
    }
  }

  lemma DataKeepsSound(s: Setting, st: State, w: World)
    requires Sound(s, st)
    ensures Sound(s, AfterData(st, w))
  {
    if MaySend(st) {
      LogGrows(s, st.log, Queued(st.user.value, st.sender, st.rcpts));
    }
  }

  lemma MailKeepsSound(s: Setting, st: State, arg: string, w: World)
    requires Sound(s, st)
    ensures Sound(s, AfterMail(s, st, arg, w))
  {
  }

  lemma AddRcptKeepsSound(s: Setting, st: State, addr: string)
    requires Sound(s, st) && st.sender != "" && |st.rcpts| < s.maxRecipients && ValidAddr(addr)
    ensures Sound(s, st.(rcpts := st.rcpts + [addr]))
  {
  }

  lemma RcptKeepsSound(s: Setting, st: State, arg: string)
    requires Sound(s, st)
    ensures Sound(s, AfterRcpt(s, st, arg))
  {
    if AfterRcpt(s, st, arg) != st {
      AddRcptKeepsSound(s, st, Canon(EnvelopeAddr(arg[3..])));
    }
  }

  lemma ClearingKeepsSound(s: Setting, st: State, arg: string, w: World)
    requires Sound(s, st)
    ensures Sound(s, Cleared(st, true)) && Sound(s, AfterGreeting(st, arg)) && Sound(s, AfterStartTLS(s, st, w))
  {
  }

  lemma CommandKeepsSound(s: Setting, st: State, c: Command)
    requires Sound(s, st)
    ensures Sound(s, After(s, st, c))
  {
    match VerbOf(c.word)
    case Auth => AuthKeepsSound(s, st, c.arg, c.world);
    case Mail => MailKeepsSound(s, st, c.arg, c.world);
    case Rcpt => RcptKeepsSound(s, st, c.arg);
    case Data => DataKeepsSound(s, st, c.world);
    case _ => ClearingKeepsSound(s, st, c.arg, c.world);
  }

  lemma {:induction false} CommandsKeepSound(s: Setting, st: State, commands: seq<Command>)
    requires Sound(s, st)
    ensures Sound(s, AfterAll(s, st, commands))
    decreases |commands|
  {
    if commands != [] {
      CommandKeepsSound(s, st, commands[0]);
      if !Closes(s, st, commands[0]) {
        CommandsKeepSound(s, After(s, st, commands[0]), commands[1..]);
      }
    }
  }

  /**
   Whatever commands arrive: every queued message has a sender its account may use and between one and the maximum
   of valid recipients, and comes straight after a permitted login by that account.
   */
  lemma SessionSafe(s: Setting, commands: seq<Command>)
    ensures SafeLog(s, AfterAll(s, Start(s), commands).log)
  {
    CommandsKeepSound(s, Start(s), commands);
  }

  class Conn {
    const setting: Setting
    var helo: string
    var sender: string
    var rcpts: seq<string>
    var user: Option<Account>
    var tlsOn: bool
    var log: seq<Entry>

    function Current(): State
      reads this
    {
      State(helo, sender, rcpts, user, tlsOn, log)
    }

    ghost predicate Valid()
      reads this
    {
      Sound(setting, Current())
    }

    constructor (setting: Setting)
      ensures Valid() && Current() == Start(setting) && this.setting == setting
    {
      this.setting := setting;
      helo, sender, rcpts, user, tlsOn, log := "", "", [], None, setting.tls == Implicit, [];
    }

    method Reset(clearAuth: bool)
      modifies this
      ensures old(Valid()) ==> Valid()
      ensures Current() == Cleared(old(Current()), clearAuth)
      ensures sender == "" && rcpts == [] && user == (if clearAuth then None else old(user))
      ensures helo == old(helo) && tlsOn == old(tlsOn) && log == old(log)
    {
      sender, rcpts := "", [];
      if clearAuth {
        user := None;
      }
    }

    method HandleStartTLS(w: World)
      requires Valid()
      modifies this
      ensures Valid()
      ensures Current() == AfterStartTLS(setting, old(Current()), w)
      ensures tlsOn == (old(tlsOn) || (setting.tls == StartTls && w.handshake)) && user == old(user) && log == old(log)
      ensures if tlsOn == old(tlsOn) then Current() == old(Current()) else helo == "" && sender == "" && rcpts == []
    {
      if setting.tls != StartTls || tlsOn || !w.handshake {
        return;
      }
      tlsOn := true;
      helo := "";
      Reset(false);
    }

    method HandleAuth(arg: string, w: World) returns (close: bool)
      requires Valid()
      modifies this
      ensures Valid()
      ensures Current() == AfterAuth(setting, old(Current()), arg, w)
      ensures close == (MayLogIn(setting, old(Current()), arg) && w.login == Unread)
      ensures old(user).Some? || (setting.requireTLS && !tlsOn && !setting.loopback) ==> Current() == old(Current())
      ensures tlsOn == old(tlsOn) && helo == old(helo)
    {
      close := false;
      if user.Some? {
        return;
      }
      if !AuthAllowed(setting, tlsOn) || !Mechanism(arg) {
        return;
      }
      match w.login
      case Unread => close := true;
      case Malformed =>
      case OtherIdentity =>
      case Given(login, password) => TryAuthenticate(login, password, w);
    }

    method TryAuthenticate(login: string, password: string, w: World)
      requires Valid() && AuthAllowed(setting, tlsOn)
      modifies this
      ensures Valid()
      ensures Current() == AfterAttempt(setting, old(Current()), login, password, w)
      ensures sender == "" && rcpts == [] && tlsOn == old(tlsOn) && helo == old(helo)
      ensures var key := Canon(login);
        if !w.lookupFails && key in w.accounts && setting.verify(w.accounts[key].hash, password)
        then user == Some(w.accounts[key]) && log == old(log) + [LoggedIn(w.accounts[key], tlsOn)]
        else user == None && log == old(log)
    {
      var key := Canon(login);
      CanonIdempotent(login);
      AttemptKeepsSound(setting, Current(), login, password, w);
      if w.lookupFails || Canon(key) !in w.accounts || !setting.verify(w.accounts[Canon(key)].hash, password) {
        user := None;
        Reset(false);
        return;
      }
      user := Some(w.accounts[Canon(key)]);
      Reset(false);
      log := log + [LoggedIn(user.value, tlsOn)];
    }

    method HandleMail(arg: string, w: World)
      requires Valid()
      modifies this
      ensures Valid()
      ensures Current() == AfterMail(setting, old(Current()), arg, w)
      ensures user == old(user) && tlsOn == old(tlsOn) && log == old(log) && helo == old(helo)
      ensures if TakesMail(setting, old(Current()), arg, w) then sender == Canon(EnvelopeAddr(arg[5..])) && rcpts == []
              else sender == old(sender) && rcpts == old(rcpts)
    {
      if user == None || !HasPrefixFold(arg, "FROM:") {
        return;
      }
      var addr := Canon(EnvelopeAddr(arg[5..]));
      CanonIdempotent(EnvelopeAddr(arg[5..]));
      if !ValidAddr(addr) || !Accounts.Allows(user.value, addr) {
        return;
      }
      if w.declaredSize > 0 && w.declaredSize > setting.maxMessageSize {
        return;
      }
      sender, rcpts := addr, [];
    }

    method HandleRcpt(arg: string)
      requires Valid()
      modifies this
      ensures Valid()
      ensures Current() == AfterRcpt(setting, old(Current()), arg)
      ensures user == old(user) && tlsOn == old(tlsOn) && log == old(log) && helo == old(helo) && sender == old(sender)
      ensures rcpts == old(rcpts) +
        if TakesRcpt(setting, old(Current()), arg) then [Canon(EnvelopeAddr(arg[3..]))] else []
    {
      if sender == "" || |rcpts| >= setting.maxRecipients || !HasPrefixFold(arg, "TO:") {
        return;
      }
      var addr := Canon(EnvelopeAddr(arg[3..]));
      if !ValidAddr(addr) {
        return;
      }
      rcpts := rcpts + [addr];
    }

    method HandleData(w: World)
      requires Valid()
      modifies this
      ensures Valid()
      ensures Current() == AfterData(old(Current()), w)
      ensures tlsOn == old(tlsOn) && helo == old(helo)
      ensures old(user) == None || old(sender) == "" || old(rcpts) == [] || w.reading == ReadFails ==>
        Current() == old(Current())
      ensures old(user).Some? && old(sender) != "" && old(rcpts) != [] && w.reading != ReadFails ==>
        && user == None && sender == "" && rcpts == []
        && log == old(log) + if w.reading == Complete && w.queueTakes
                             then [Queued(old(user).value, old(sender), old(rcpts))] else []
    {
      DataKeepsSound(setting, Current(), w);
      if user == None || sender == "" || rcpts == [] {
        return;
      }
      match w.reading
      case ReadFails =>
      case TooLarge => Reset(true);
      case Complete =>
        if w.queueTakes {
          log := log + [Queued(user.value, sender, rcpts)];
        }
        Reset(true);
    }

    method Handle(c: Command) returns (close: bool)
      requires Valid()
      modifies this
      ensures Valid()
      ensures Current() == After(setting, old(Current()), c) && close == Closes(setting, old(Current()), c)
      ensures ToLower(c.word) == "quit" ==> close && Current() == old(Current())
      ensures ToLower(c.word) == "rset" ==> !close && sender == "" && rcpts == [] && user == None && log == old(log)
      ensures ToLower(c.word) in ["helo", "ehlo"] && c.arg != "" ==>
        !close && helo == c.arg && sender == "" && rcpts == [] && user == old(user) && log == old(log)
      ensures ToLower(c.word) !in ["helo", "ehlo", "auth", "mail", "rcpt", "data", "rset", "quit", "starttls"] ==>
        !close && Current() == old(Current())
    {
      close := false;
      VerbLaw(setting, Current(), c);
      match VerbOf(c.word)
      case Greeting =>
        if c.arg != "" {
          helo := c.arg;
          Reset(false);
        }
      case Auth => close := HandleAuth(c.arg, c.world);
      case Mail => HandleMail(c.arg, c.world);
      case Rcpt => HandleRcpt(c.arg);
      case Data => HandleData(c.world);
      case Rset => Reset(true);
      case Quit => close := true;
      case StartTlsVerb => HandleStartTLS(c.world);
      case Other =>
    }
  }

  /** A whole connection. */
  method Serve(setting: Setting, commands: seq<Command>) returns (log: seq<Entry>)
    ensures log == AfterAll(setting, Start(setting), commands).log && SafeLog(setting, log)
  {
    var conn := new Conn(setting);
    ghost var goal := AfterAll(setting, conn.Current(), commands);
    var i := 0;
    while i < |commands|
      invariant 0 <= i <= |commands| && fresh(conn) && conn.setting == setting && conn.Valid()
      invariant AfterAll(setting, conn.Current(), commands[i..]) == goal
    {
      assert commands[i..][0] == commands[i] && commands[i..][1..] == commands[i + 1..];
      var close := conn.Handle(commands[i]);
      i := i + 1;
      if close {
        return conn.log;
      }
    }
    log := conn.log;
  }
}
