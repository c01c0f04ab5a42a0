/**
 The four tables that must agree about who is connected and logged in: SockLookup_, ClientContext_
 with its clients_fd sets, NetContext_ and FdHandlers_. Each event handler is one atomic step.
 */
module Registry {
  import opened Bytes
  import opened Framing
  import opened Protocol

  /** What a context copies from its account: type, q_files, jnl_file and jnl_rate. */
  datatype Settings = Settings(isQuery: bool, queryFiles: map<nat, string>, jnlFile: string, jnlRate: int)

  /** watchesFile: the account names a playback file to be monitored. The code is the account's key. */
  datatype Account = Account(pwd: seq<Byte>, watchesFile: bool, settings: Settings)

  /** What inotify_init and inotify_add_watch return when a context is constructed. */
  datatype Inotify = Inotify(initFd: int, watch: int)

  datatype Context = Context(notifyFd: int, watchFd: int, clients: set<int>, settings: Settings)

  datatype Tables = Tables(
    sock: map<int, int>,          // SockLookup_: fd to account code, -1 before login
    contexts: map<int, Context>,  // ClientContext_
    connections: set<int>,        // keys of NetContext_
    handlers: set<int>            // keys of FdHandlers_
  )

  // ---------------------------------------------------------------- the handlers as functions

  /** bse_client_context's constructor, and the fields create_client_context copies from the account. */
  function NewContext(account: Account, sys: Inotify, fd: int): Context {
    var watching := account.watchesFile && sys.initFd >= 0 && sys.watch >= 0;
    Context(if watching then sys.initFd else 0, if watching then sys.watch else 0, {fd}, account.settings)
  }

  function Connected(s: Tables, fd: int): Tables {
    s.(sock := if fd in s.sock then s.sock else s.sock[fd := -1], connections := s.connections + {fd})
  }

  /** create_client_context */
  function Joined(s: Tables, fd: int, code: int, account: Account, sys: Inotify): Tables {
    var created := NewContext(account, sys, fd);
    var context :=
      if code in s.contexts then s.contexts[code].(clients := s.contexts[code].clients + {fd}) else created;
    s.(contexts := s.contexts[code := context],
       handlers := if code !in s.contexts && created.watchFd > 0 then s.handlers + {created.notifyFd} else s.handlers,
       sock := if fd in s.sock then s.sock[fd := code] else s.sock)
  }

  predicate Accepts(accounts: map<int, Account>, code: int, pwd: seq<Byte>) {
    code in accounts && accounts[code].pwd == pwd
  }

  function LoggedIn(accounts: map<int, Account>, s: Tables, fd: int, code: int, pwd: seq<Byte>, sys: Inotify): Tables {
    if Accepts(accounts, code, pwd) then Joined(s, fd, code, accounts[code], sys) else s
  }

  /** clear_client_context */
  function Cleared(s: Tables, fd: int, code: int): Tables {
    if code !in s.contexts then s.(sock := s.sock - {fd})
    else
      var context := s.contexts[code].(clients := s.contexts[code].clients - {fd});
      if context.clients != {} then s.(contexts := s.contexts[code := context], sock := s.sock - {fd})
      else
        s.(contexts := s.contexts - {code},
           handlers := if context.notifyFd > 0 then s.handlers - {context.notifyFd} else s.handlers,
           sock := s.sock - {fd})
  }

  /** on_disconnect or on_error, then clear_context_event */
  function Dropped(s: Tables, fd: int): Tables {
    (if fd in s.sock then Cleared(s, fd, s.sock[fd]) else s).(connections := s.connections - {fd})
  }

  // ---------------------------------------------------------------- what the handlers do to the tables

  /** A login with the account's own password, and no other: the connection joins, and nobody else is touched. */
  lemma LoginMeans(accounts: map<int, Account>, s: Tables, fd: int, code: int, pwd: seq<Byte>, sys: Inotify)
    ensures !(code in accounts && accounts[code].pwd == pwd) ==> After(accounts, s, Login(fd, code, pwd, sys)) == s
    ensures code in accounts && accounts[code].pwd == pwd ==>
              var t := After(accounts, s, Login(fd, code, pwd, sys));
              && t.connections == s.connections && t.sock == (if fd in s.sock then s.sock[fd := code] else s.sock)
              && t.contexts.Keys == s.contexts.Keys + {code}
              && (forall c :: c in s.contexts && c != code ==> t.contexts[c] == s.contexts[c])
              && (code in s.contexts ==>
                  t.contexts[code] == s.contexts[code].(clients := s.contexts[code].clients + {fd})
                  && t.handlers == s.handlers)
  {
  }

  /** The first login of an account: its file is watched, and the watch handled, if it has one and inotify works. */
  lemma FirstLoginWatches(accounts: map<int, Account>, s: Tables, fd: int, code: int, pwd: seq<Byte>, sys: Inotify)
    requires Possible(s, Login(fd, code, pwd, sys)) && code in accounts && accounts[code].pwd == pwd
    requires code !in s.contexts
    ensures
      var t := After(accounts, s, Login(fd, code, pwd, sys));
      && code in t.contexts && t.contexts[code].clients == {fd} && t.contexts[code].settings == accounts[code].settings
      && if accounts[code].watchesFile && sys.initFd >= 0 && sys.watch >= 0
         then t.contexts[code].notifyFd == sys.initFd && t.contexts[code].watchFd == sys.watch
           && sys.initFd !in s.handlers && t.handlers == s.handlers + {sys.initFd}
         else t.contexts[code].notifyFd == t.contexts[code].watchFd == 0 && t.handlers == s.handlers
  {
  }

  /** A connection that goes takes its own entries with it; the last of an account also its context and its handler. */
  lemma DropMeans(accounts: map<int, Account>, s: Tables, fd: int)
    ensures
      var t := After(accounts, s, Drop(fd));
      && t.connections == s.connections - {fd} && t.sock == s.sock - {fd}
      && (fd !in s.sock || s.sock[fd] !in s.contexts ==> t.contexts == s.contexts && t.handlers == s.handlers)
      && (fd in s.sock && s.sock[fd] in s.contexts ==>
          var code, context := s.sock[fd], s.contexts[s.sock[fd]];
          && (forall c :: c in s.contexts && c != code ==> c in t.contexts && t.contexts[c] == s.contexts[c])
          && (forall c :: c in t.contexts ==> c in s.contexts)
          && (code in t.contexts <==> exists g :: g in context.clients && g != fd)
          && (code in t.contexts ==>
              t.contexts[code] == context.(clients := context.clients - {fd}) && t.handlers == s.handlers)
          && (code !in t.contexts ==>
              t.handlers == if context.notifyFd > 0 then s.handlers - {context.notifyFd} else s.handlers))
  {
    if fd in s.sock && s.sock[fd] in s.contexts {
      var clients := s.contexts[s.sock[fd]].clients;
      if clients - {fd} != {} {
        var g := SomeMember(clients - {fd});
        assert g in clients && g != fd;
      } else {
        assert forall g :: g in clients && g != fd ==> g in clients - {fd};
      }
    }
  }

  // ---------------------------------------------------------------- runs

  datatype Event =
    | Connect(fd: int)
    | Login(fd: int, code: int, pwd: seq<Byte>, sys: Inotify)
    | Drop(fd: int)

  /** The code of a login record is an unsigned 16-bit field; the kernel hands out descriptors that are not in use. */
  predicate Possible(s: Tables, e: Event) {
    match e
    case Connect(fd) => fd >= 0 && fd !in s.connections && fd !in s.handlers
    case Login(_, code, _, sys) =>
      0 <= code < 65536 && sys.watch != 0 &&
      (sys.initFd >= 0 ==> sys.initFd > 0 && sys.initFd !in s.connections && sys.initFd !in s.handlers)
    case Drop(_) => true
  }

  function After(accounts: map<int, Account>, s: Tables, e: Event): Tables {
    match e
    case Connect(fd) => Connected(s, fd)
    case Login(fd, code, pwd, sys) => LoggedIn(accounts, s, fd, code, pwd, sys)
    case Drop(fd) => Dropped(s, fd)
  }

  /** The server is listening and nobody has connected. */
  function Listening(listenFd: int): Tables {
    Tables(map[], map[], {}, {listenFd})
  }

  function Run(accounts: map<int, Account>, listenFd: int, events: seq<Event>): Tables {
    if events == [] then Listening(listenFd)
    else After(accounts, Run(accounts, listenFd, events[..|events| - 1]), events[|events| - 1])
  }

  ghost predicate PossibleRun(accounts: map<int, Account>, listenFd: int, events: seq<Event>) {
    events != [] ==>
      && PossibleRun(accounts, listenFd, events[..|events| - 1])
      && Possible(Run(accounts, listenFd, events[..|events| - 1]), events[|events| - 1])
  }

  // ---------------------------------------------------------------- invariants

  /** A logged-in fd is in the client set of its context; contexts are never empty; -1 is never a code. */
  ghost predicate Safe(accounts: map<int, Account>, s: Tables) {
    && (forall fd :: fd in s.sock && s.sock[fd] != -1 ==>
        s.sock[fd] in s.contexts && fd in s.contexts[s.sock[fd]].clients)
    && (forall code :: code in s.contexts ==> s.contexts[code].clients != {} && 0 <= code < 65536 && code in accounts)
    && (forall code :: code in s.contexts ==> s.contexts[code].settings == accounts[code].settings)
    && s.sock.Keys == s.connections
  }

  /** The handled descriptors are the listening one and one for each context that watches a file. */
  ghost predicate WatchesAgree(listenFd: int, s: Tables) {
    && (forall h :: h in s.handlers <==>
        h == listenFd || exists code :: code in s.contexts && s.contexts[code].notifyFd == h && h > 0)
    && (forall c :: c in s.contexts ==> 0 <= s.contexts[c].notifyFd != listenFd)
    && (forall c, d :: c in s.contexts && d in s.contexts && c != d && s.contexts[c].notifyFd > 0 ==>
        s.contexts[c].notifyFd != s.contexts[d].notifyFd)
  }

  lemma SafeKept(accounts: map<int, Account>, s: Tables, e: Event)
    requires Safe(accounts, s) && Possible(s, e)
    ensures Safe(accounts, After(accounts, s, e))
  {
  }

  lemma JoinWatches(listenFd: int, s: Tables, fd: int, code: int, account: Account, sys: Inotify)
    requires WatchesAgree(listenFd, s) && listenFd > 0 && Possible(s, Login(fd, code, account.pwd, sys))
    ensures WatchesAgree(listenFd, Joined(s, fd, code, account, sys))
  {
    var t := Joined(s, fd, code, account, sys);
    forall h ensures h in t.handlers <==>
      h == listenFd || exists c :: c in t.contexts && t.contexts[c].notifyFd == h && h > 0 {
      if c :| c in s.contexts && s.contexts[c].notifyFd == h && h > 0 {
        assert c in t.contexts && t.contexts[c].notifyFd == h;
      }
      assert code in t.contexts;
    }
  }

  lemma DropWatches(listenFd: int, s: Tables, fd: int)
    requires WatchesAgree(listenFd, s) && listenFd > 0
    ensures WatchesAgree(listenFd, Dropped(s, fd))
  {
    var t := Dropped(s, fd);
    forall h ensures h in t.handlers <==>
      h == listenFd || exists c :: c in t.contexts && t.contexts[c].notifyFd == h && h > 0 {
      if c :| c in s.contexts && s.contexts[c].notifyFd == h && h > 0 {
        if c in t.contexts {
          assert t.contexts[c].notifyFd == h;
        }
      }
    }
  }

  lemma WatchesKept(accounts: map<int, Account>, listenFd: int, s: Tables, e: Event)
    requires WatchesAgree(listenFd, s) && listenFd > 0 && Possible(s, e)
    ensures WatchesAgree(listenFd, After(accounts, s, e))
  {
    match e
    case Connect(_) =>
    case Login(fd, code, pwd, sys) =>
      if Accepts(accounts, code, pwd) { JoinWatches(listenFd, s, fd, code, accounts[code], sys); }
    case Drop(fd) => DropWatches(listenFd, s, fd);
  }

  lemma {:induction false} ReachableTables(accounts: map<int, Account>, listenFd: int, events: seq<Event>)
    requires listenFd > 0 && PossibleRun(accounts, listenFd, events)
    ensures Safe(accounts, Run(accounts, listenFd, events))
    ensures WatchesAgree(listenFd, Run(accounts, listenFd, events))
    decreases |events|
  {
    if events != [] {
      var before, e := events[..|events| - 1], events[|events| - 1];
      ReachableTables(accounts, listenFd, before);
      SafeKept(accounts, Run(accounts, listenFd, before), e);
      WatchesKept(accounts, listenFd, Run(accounts, listenFd, before), e);
    }
  }

  // ---------------------------------------------------------------- who is registered, and why

  /** Event i logged fd in with the password of that account, and fd has not been dropped since. */
  ghost predicate LoggedInAt(accounts: map<int, Account>, events: seq<Event>, i: nat, fd: int, code: int) {
    && i < |events|
    && events[i].Login? && events[i].fd == fd && events[i].code == code
    && Accepts(accounts, code, events[i].pwd)
    && (forall j :: i < j < |events| ==> events[j] != Drop(fd))
  }

  /** Every fd registered under a code got there by a login with that account's own password. */
  lemma {:induction false} RegistrationWasEarned(accounts: map<int, Account>, listenFd: int, events: seq<Event>,
      fd: int) returns (i: nat)
    requires PossibleRun(accounts, listenFd, events)
    requires
      var t := Run(accounts, listenFd, events);
      fd in t.sock && t.sock[fd] != -1
    ensures LoggedInAt(accounts, events, i, fd, Run(accounts, listenFd, events).sock[fd])
    decreases |events|
  {
    var before, e := events[..|events| - 1], events[|events| - 1];
    var s, t := Run(accounts, listenFd, before), Run(accounts, listenFd, events);
    if e.Login? && e.fd == fd && fd in s.sock && Accepts(accounts, e.code, e.pwd) {
      i := |events| - 1;
    } else {
      assert fd in s.sock && s.sock[fd] == t.sock[fd] && e != Drop(fd);
      i := RegistrationWasEarned(accounts, listenFd, before, fd);
      assert events[i] == before[i];
      forall j | i < j < |events| ensures events[j] != Drop(fd) {
        if j < |before| {
          assert events[j] == before[j];
        }
      }
    }
  }

  lemma SomeMember<T>(s: set<T>) returns (x: T)
    requires s != {}
    ensures x in s
  {
    x :| x in s;
  }

  // ---------------------------------------------------------------- exactness

  /** Each client set is exactly the set of connections registered under its code. */
  ghost predicate Exact(s: Tables) {
    && (forall code, fd :: code in s.contexts && fd in s.contexts[code].clients ==> fd in s.sock && s.sock[fd] == code)
    && (forall fd :: fd in s.sock && s.sock[fd] != -1 ==>
        s.sock[fd] in s.contexts && fd in s.contexts[s.sock[fd]].clients)
  }

  lemma ExactClients(s: Tables, code: int)
    requires Exact(s) && (forall c :: c in s.contexts ==> s.contexts[c].clients != {}) && code != -1
    ensures code in s.contexts <==> exists fd :: fd in s.sock && s.sock[fd] == code
    ensures code in s.contexts ==> s.contexts[code].clients == set fd | fd in s.sock && s.sock[fd] == code
  {
    if code in s.contexts {
      var fd := SomeMember(s.contexts[code].clients);
      assert fd in s.sock && s.sock[fd] == code;
      var registered := set g | g in s.sock && s.sock[g] == code;
      assert forall g :: g in s.contexts[code].clients <==> g in registered;
    }
  }

  lemma ExactConnectDrop(accounts: map<int, Account>, s: Tables, e: Event)
    requires Safe(accounts, s) && Exact(s) && Possible(s, e) && !e.Login?
    ensures Exact(After(accounts, s, e))
  {
  }

  /**
   An accepted login keeps the client sets exact exactly when the connection is still known and is
   not registered under another code: a login under a second code leaves the first client set stale.
   */
  lemma ExactLoginIff(accounts: map<int, Account>, s: Tables, fd: int, code: int, pwd: seq<Byte>, sys: Inotify)
    requires Safe(accounts, s) && Exact(s) && Possible(s, Login(fd, code, pwd, sys))
    requires Accepts(accounts, code, pwd)
    ensures Exact(LoggedIn(accounts, s, fd, code, pwd, sys)) <==> LoginKeepsCode(s, fd, code)
  {
    var t := LoggedIn(accounts, s, fd, code, pwd, sys);
    assert code in t.contexts && fd in t.contexts[code].clients;
    if fd in s.sock && s.sock[fd] != -1 && s.sock[fd] != code {
      var first := s.sock[fd];
      assert first in t.contexts && fd in t.contexts[first].clients && t.sock[fd] != first;
    }
    if fd in s.sock && (s.sock[fd] == -1 || s.sock[fd] == code) {
      forall c, g | c in t.contexts && g in t.contexts[c].clients ensures g in t.sock && t.sock[g] == c {
        if g != fd || c != code {
          assert c in s.contexts && g in s.contexts[c].clients;
        }
      }
    }
  }

  /** The connection is known and has no code, or this one. */
  predicate LoginKeepsCode(s: Tables, fd: int, code: int) {
    fd in s.sock && (s.sock[fd] == -1 || s.sock[fd] == code)
  }

  /** No accepted login of this run came from an unknown connection or changed the code of one. */
  ghost predicate OneCodeEach(accounts: map<int, Account>, listenFd: int, events: seq<Event>) {
    forall i :: 0 <= i < |events| && events[i].Login? && Accepts(accounts, events[i].code, events[i].pwd) ==>
      LoginKeepsCode(Run(accounts, listenFd, events[..i]), events[i].fd, events[i].code)
  }

  lemma {:induction false} ExactOnRuns(accounts: map<int, Account>, listenFd: int, events: seq<Event>)
    requires listenFd > 0 && PossibleRun(accounts, listenFd, events) && OneCodeEach(accounts, listenFd, events)
    ensures Exact(Run(accounts, listenFd, events))
    decreases |events|
  {
    if events != [] {
      var n := |events| - 1;
      var before, e := events[..n], events[n];
      var s := Run(accounts, listenFd, before);
      OneCodePrefix(accounts, listenFd, events, n);
      ExactOnRuns(accounts, listenFd, before);
      ReachableTables(accounts, listenFd, before);
      if e.Login? && Accepts(accounts, e.code, e.pwd) {
        ExactLoginIff(accounts, s, e.fd, e.code, e.pwd, e.sys);
      } else if !e.Login? {
        ExactConnectDrop(accounts, s, e);
      }
    }
  }

  /**
   Over whole runs the condition is exact: the client sets are right at every point of a run if and
   only if every accepted login of it came from a known connection that had no other code.
   */
  lemma {:induction false} ExactThroughoutIff(accounts: map<int, Account>, listenFd: int, events: seq<Event>)
    requires listenFd > 0 && PossibleRun(accounts, listenFd, events)
    ensures (forall n :: 0 <= n <= |events| ==> Exact(Run(accounts, listenFd, events[..n])))
       <==> OneCodeEach(accounts, listenFd, events)
  {
    forall n | 0 <= n <= |events| ensures PossibleRun(accounts, listenFd, events[..n]) {
      PossiblePrefix(accounts, listenFd, events, n);
    }
    if OneCodeEach(accounts, listenFd, events) {
      forall n | 0 <= n <= |events| ensures Exact(Run(accounts, listenFd, events[..n])) {
        OneCodePrefix(accounts, listenFd, events, n);
        ExactOnRuns(accounts, listenFd, events[..n]);
      }
    }
    if forall n :: 0 <= n <= |events| ==> Exact(Run(accounts, listenFd, events[..n])) {
      forall i | 0 <= i < |events| && events[i].Login? && Accepts(accounts, events[i].code, events[i].pwd)
        ensures LoginKeepsCode(Run(accounts, listenFd, events[..i]), events[i].fd, events[i].code)
      {
        var s, e := Run(accounts, listenFd, events[..i]), events[i];
        var next := events[..i + 1];
        assert next[..i] == events[..i] && next[i] == e;
        ReachableTables(accounts, listenFd, events[..i]);
        assert Possible(s, e) && Exact(s) && Exact(Run(accounts, listenFd, next));
        ExactLoginIff(accounts, s, e.fd, e.code, e.pwd, e.sys);
      }
    }
  }

  lemma {:induction false} PossiblePrefix(accounts: map<int, Account>, listenFd: int, events: seq<Event>, n: nat)
    requires PossibleRun(accounts, listenFd, events) && n <= |events|
    ensures PossibleRun(accounts, listenFd, events[..n])
    decreases |events|
  {
    if n == |events| {
      assert events[..n] == events;
    } else {
      var before := events[..|events| - 1];
      assert before[..n] == events[..n];
      PossiblePrefix(accounts, listenFd, before, n);
    }
  }

  lemma OneCodePrefix(accounts: map<int, Account>, listenFd: int, events: seq<Event>, n: nat)
    requires n <= |events| && OneCodeEach(accounts, listenFd, events)
    ensures OneCodeEach(accounts, listenFd, events[..n])
  {
    var before := events[..n];
    forall i | 0 <= i < n && before[i].Login? && Accepts(accounts, before[i].code, before[i].pwd)
      ensures LoginKeepsCode(Run(accounts, listenFd, before[..i]), before[i].fd, before[i].code)
    {
      assert before[..i] == events[..i] && before[i] == events[i];
    }
  }

  /** A connection that logs in under a second code and leaves: the first context keeps its fd for good. */
  lemma SecondCodeLeavesGhost(accounts: map<int, Account>, s: Tables, fd: int, code: int, pwd: seq<Byte>, sys: Inotify)
    requires Safe(accounts, s) && Possible(s, Login(fd, code, pwd, sys)) && Accepts(accounts, code, pwd)
    requires fd in s.sock && s.sock[fd] != -1 && s.sock[fd] != code
    ensures
      var t := Dropped(LoggedIn(accounts, s, fd, code, pwd, sys), fd);
      fd !in t.sock && s.sock[fd] in t.contexts && fd in t.contexts[s.sock[fd]].clients
  {
  }

  /**
   Who is sent an account's journal: if no connection logs in under two codes, every member of a client
   set logged in under that code with that account's own password and has not been dropped since.
   */
  lemma {:induction false} ClientsWereEarned(accounts: map<int, Account>, listenFd: int, events: seq<Event>, fd: int,
      code: int)
    returns (i: nat)
    requires listenFd > 0 && PossibleRun(accounts, listenFd, events) && OneCodeEach(accounts, listenFd, events)
    requires
      var t := Run(accounts, listenFd, events);
      code in t.contexts && fd in t.contexts[code].clients
    ensures LoggedInAt(accounts, events, i, fd, code)
  {
    ExactOnRuns(accounts, listenFd, events);
    ReachableTables(accounts, listenFd, events);
    i := RegistrationWasEarned(accounts, listenFd, events, fd);
  }

  /**
   Otherwise not: after a login under a second code and a disconnect, the next connection that is given
   the same descriptor is a client of the first account at once, without having logged in to anything.
   */
  lemma {:induction false} GhostIsInherited(accounts: map<int, Account>, s: Tables, fd: int, code: int, pwd: seq<Byte>,
      sys: Inotify)
    requires Safe(accounts, s) && Possible(s, Login(fd, code, pwd, sys)) && Accepts(accounts, code, pwd)
    requires fd in s.sock && s.sock[fd] != -1 && s.sock[fd] != code
    ensures
      var t := Connected(Dropped(LoggedIn(accounts, s, fd, code, pwd, sys), fd), fd);
      && fd in t.connections && fd in t.sock && t.sock[fd] == -1
      && s.sock[fd] in t.contexts && fd in t.contexts[s.sock[fd]].clients
  {
    SecondCodeLeavesGhost(accounts, s, fd, code, pwd, sys);
  }

  /** With exact tables every client set names connections only. */
  lemma ExactClientsConnected(accounts: map<int, Account>, s: Tables, code: int)
    requires Safe(accounts, s) && Exact(s) && code in s.contexts
    ensures s.contexts[code].clients <= s.connections
  {
    forall fd | fd in s.contexts[code].clients ensures fd in s.connections {
      assert fd in s.sock.Keys;
    }
  }

  // ---------------------------------------------------------------- queries

  /** What a connection may query is decided by the account it is logged in to, and by nothing else. */
  function QueryFile(accounts: map<int, Account>, s: Tables, fd: int, msgType: nat): string {
    if fd in s.sock && s.sock[fd] != -1 && s.sock[fd] in accounts then
      var settings := accounts[s.sock[fd]].settings;
      if settings.isQuery && msgType in settings.queryFiles then settings.queryFiles[msgType] else ""
    else ""
  }

  // ---------------------------------------------------------------- accepting

  /** The tables after a batch of connections has been accepted. */
  function Accepted(s: Tables, fds: seq<int>): Tables {
    if fds == [] then s else Connected(Accepted(s, fds[..|fds| - 1]), fds[|fds| - 1])
  }

  /** accept returns a descriptor that is not in use at that moment. */
  ghost predicate PossibleAccepts(s: Tables, fds: seq<int>) {
    forall n :: 0 <= n < |fds| ==> Possible(Accepted(s, fds[..n]), Connect(fds[n]))
  }

  lemma AcceptedNext(s: Tables, fds: seq<int>, n: nat)
    requires n < |fds|
    ensures Accepted(s, fds[..n + 1]) == Connected(Accepted(s, fds[..n]), fds[n])
  {
    assert fds[..n + 1][..n] == fds[..n];
  }

  lemma SeqMember(init: seq<int>, last: int)
    ensures forall x :: x in init + [last] <==> x in init || x == last
  {
  }

  /** t has both table entries for these connections, none of them logged in, and is s otherwise. */
  ghost predicate Widened(s: Tables, t: Tables, fds: seq<int>) {
    && t.contexts == s.contexts && t.handlers == s.handlers
    && (forall fd :: fd in t.connections <==> fd in s.connections || fd in fds)
    && t.sock.Keys == t.connections
    && (forall fd :: fd in t.sock ==> t.sock[fd] == if fd in s.sock then s.sock[fd] else -1)
  }

  lemma WidenedOn(s: Tables, t: Tables, fds: seq<int>, fd: int)
    requires Widened(s, t, fds) && s.sock.Keys == s.connections && fd !in t.connections
    ensures Widened(s, Connected(t, fd), fds + [fd])
  {
    SeqMember(fds, fd);
    assert fd !in t.sock.Keys && fd !in s.sock.Keys;
  }

  lemma PossibleBefore(s: Tables, fds: seq<int>)
    requires fds != [] && PossibleAccepts(s, fds)
    ensures PossibleAccepts(s, fds[..|fds| - 1])
    ensures Possible(Accepted(s, fds[..|fds| - 1]), Connect(fds[|fds| - 1]))
  {
    var before := fds[..|fds| - 1];
    forall k | 0 <= k < |before| ensures Possible(Accepted(s, before[..k]), Connect(before[k])) {
      assert before[..k] == fds[..k] && before[k] == fds[k];
    }
  }

  /** Every accepted connection gets both table entries, none is logged in, and nothing else changes. */
  lemma {:induction false} AcceptedMeans(s: Tables, fds: seq<int>)
    requires s.sock.Keys == s.connections && PossibleAccepts(s, fds)
    ensures Widened(s, Accepted(s, fds), fds)
    decreases |fds|
  {
    if fds != [] {
      var before, last := fds[..|fds| - 1], fds[|fds| - 1];
      PossibleBefore(s, fds);
      AcceptedMeans(s, before);
      WidenedOn(s, Accepted(s, before), before, last);
      assert before + [last] == fds;
      assert Accepted(s, fds) == Connected(Accepted(s, before), last);
    }
  }

  // ---------------------------------------------------------------- the server object

  /** BSESimulator, with the parts of EpollNet it shares its tables with. */
  class BseSimulator {
    const accounts: map<int, Account>
    const listenFd: int
    var sockLookup: map<int, int>
    var clientContext: map<int, Context>
    var netContext: set<int>
    var fdHandlers: set<int>

    constructor (accounts: map<int, Account>, listenFd: int)
      requires listenFd > 0
      ensures this.accounts == accounts && this.listenFd == listenFd
      ensures Valid() && State() == Listening(listenFd)
    {
      this.accounts, this.listenFd := accounts, listenFd;
      sockLookup, clientContext, netContext := map[], map[], {};
      fdHandlers := {listenFd};
    }

    function State(): Tables
      reads this
    {
      Tables(sockLookup, clientContext, netContext, fdHandlers)
    }

    ghost predicate Valid()
      reads this
    {
      listenFd > 0 && Safe(accounts, State()) && WatchesAgree(listenFd, State())
    }

    method CreateClientContext(fd: int, code: int, account: Account, sys: Inotify)
      modifies this
      ensures State() == Joined(old(State()), fd, code, account, sys)
    {
      if code !in clientContext {
        var context := NewContext(account, sys, fd);
        if context.watchFd > 0 {
          fdHandlers := fdHandlers + {context.notifyFd};
        }
        clientContext := clientContext[code := context];
      } else {
        var online := clientContext[code];
        clientContext := clientContext[code := online.(clients := online.clients + {fd})];
      }
      if fd in sockLookup {
        sockLookup := sockLookup[fd := code];
      }
    }

    /** The set's erase(find(fd)) is defined only if fd is there, which the callers guarantee. */
    method ClearClientContext(fd: int, code: int)
      requires code in clientContext ==> fd in clientContext[code].clients
      modifies this
      ensures State() == Cleared(old(State()), fd, code)
    {
      if code in clientContext {
        var context := clientContext[code];
        context := context.(clients := context.clients - {fd});
        clientContext := clientContext[code := context];
        if context.clients == {} {
          if context.notifyFd > 0 {
            fdHandlers := fdHandlers - {context.notifyFd};
          }
          clientContext := clientContext - {code};
          assert clientContext == old(clientContext) - {code};
        }
      }
      sockLookup := sockLookup - {fd};
    }

    /** handle_accept: accept, create_context, on_connect and add_event until accept would block. */
    method HandleAccept(waiting: seq<int>)
      requires Valid() && PossibleAccepts(State(), waiting)
      modifies this
      ensures Valid()
      ensures State() == Accepted(old(State()), waiting)
    {
      ghost var start := State();
      var n := 0;
      assert waiting[..0] == [];
      while n < |waiting|
        invariant n <= |waiting|
        invariant Valid() && State() == Accepted(start, waiting[..n])
      {
        var connFd := waiting[n];
        AcceptedNext(start, waiting, n);
        SafeKept(accounts, State(), Connect(connFd));
        WatchesKept(accounts, listenFd, State(), Connect(connFd));
        netContext := netContext + {connFd};
        if connFd !in sockLookup {
          sockLookup := sockLookup[connFd := -1];
        }
        n := n + 1;
      }
      assert waiting[..|waiting|] == waiting;
    }

    /** handle_login; the flag is what goes into the reply, 0 or (uint16_t)-2. */
    method HandleLogin(fd: int, code: int, pwd: seq<Byte>, sys: Inotify) returns (flag: bv16)
      requires Valid() && Possible(State(), Login(fd, code, pwd, sys))
      modifies this
      ensures Valid()
      ensures State() == After(accounts, old(State()), Login(fd, code, pwd, sys))
      ensures flag == if Accepts(accounts, code, pwd) then 0 else 0xfffe
    {
      SafeKept(accounts, State(), Login(fd, code, pwd, sys));
      WatchesKept(accounts, listenFd, State(), Login(fd, code, pwd, sys));
      if code !in accounts {
        flag := 0xfffe;
      } else if accounts[code].pwd != pwd {
        flag := 0xfffe;
      } else {
        CreateClientContext(fd, code, accounts[code], sys);
        flag := 0;
      }
    }

    /** handle_request: the file is looked up through the connection's context. */
    method HandleRequest(fd: int, msgType: nat) returns (reply: seq<Byte>, file: string)
      requires Valid()
      ensures file == QueryFile(accounts, State(), fd, msgType)
      ensures
        var code := if fd in sockLookup then sockLookup[fd] else -1;
        file != "" <==>
          && code != -1 && code in accounts && accounts[code].settings.isQuery
          && msgType in accounts[code].settings.queryFiles && accounts[code].settings.queryFiles[msgType] != ""
      ensures |reply| == 12 && Read32(reply[4..8]) == if file == "" then 2111 else 2110
      ensures Read32(reply[8..12]) == if file == "" then 1 else 10
      ensures Lawful(CLIENT) && Frames(CLIENT, reply) == [Message(if file == "" then 2111 else 2110, reply)]
    {
      file := "";
      if fd in sockLookup {
        var code := sockLookup[fd];
        if code in clientContext && clientContext[code].settings.isQuery {
          var files := clientContext[code].settings.queryFiles;
          if msgType in files {
            file := files[msgType];
          }
        }
      }
      reply := if file == "" then QueryReply(QUERY_REPLY_ERR_TYPE, 1) else QueryReply(QUERY_REPLY_OK_TYPE, 10);
      QueryReplyRead(2111, 1);
      QueryReplyRead(2110, 10);
    }

    /** on_disconnect and on_error differ only in what they print. */
    method OnDisconnect(fd: int)
      requires Valid()
      modifies this
      ensures State() == if fd in old(sockLookup) then Cleared(old(State()), fd, old(sockLookup)[fd]) else old(State())
    {
      if fd in sockLookup {
        ClearClientContext(fd, sockLookup[fd]);
      }
    }

    /** on_disconnect or on_error followed by clear_context_event, on any fd at all. */
    method Drop(fd: int)
      requires Valid()
      modifies this
      ensures Valid()
      ensures State() == After(accounts, old(State()), Event.Drop(fd))
    {
      SafeKept(accounts, State(), Event.Drop(fd));
      WatchesKept(accounts, listenFd, State(), Event.Drop(fd));
      OnDisconnect(fd);
      netContext := netContext - {fd};
    }

    /** The grouping loop of command_list, over the table in whatever order it is visited. */
    method CommandList() returns (onlines: map<int, set<int>>)
      ensures forall code :: code in onlines <==> exists fd :: fd in sockLookup && sockLookup[fd] == code
      ensures forall code :: code in onlines ==> onlines[code] == set fd | fd in sockLookup && sockLookup[fd] == code
    {
      onlines := map[];
      var left := sockLookup.Keys;
      while left != {}
        invariant left <= sockLookup.Keys
        invariant forall code, fd :: code in onlines && fd in onlines[code] ==>
            fd in sockLookup && fd !in left && sockLookup[fd] == code
        invariant forall fd :: fd in sockLookup && fd !in left ==>
            sockLookup[fd] in onlines && fd in onlines[sockLookup[fd]]
        invariant forall code :: code in onlines ==> onlines[code] != {}
        decreases left
      {
        ghost var member := SomeMember(left);
        var fd :| fd in left;
        left := left - {fd};
        var code := sockLookup[fd];
        if code in onlines {
          onlines := onlines[code := onlines[code] + {fd}];
        } else {
          onlines := onlines[code := {fd}];
        }
      }
      forall code | code in onlines ensures exists fd :: fd in sockLookup && sockLookup[fd] == code {
        var fd := SomeMember(onlines[code]);
        assert sockLookup[fd] == code;
      }
      forall code | code in onlines ensures onlines[code] == set fd | fd in sockLookup && sockLookup[fd] == code {
        var registered := set fd | fd in sockLookup && sockLookup[fd] == code;
        assert forall fd :: fd in onlines[code] <==> fd in registered;
      }
    }
  }
}
