/**
 * The prototype name registry of server.py: newline-separated text datagrams, a
 * dictionary from name to (ip, udp port, tcp port) capped at 100 names, and a reply per
 * REGISTER or DE-REGISTER. A request with too few fields raises `IndexError`, which
 * nothing catches: the server stops (`crashed`).
 */
module PrototypeServer {
  import opened Wrappers
  import opened Addresses

  /** `str.split(sep)`: the pieces between separators, always at least one. */
  function Split(s: string, sep: char): (parts: seq<string>)
    ensures |parts| >= 1
    ensures forall i :: 0 <= i < |parts| ==> sep !in parts[i]
  {
    if s == [] then [""]
    else
      var rest := Split(s[1..], sep);
      if s[0] == sep then [""] + rest
      else [[s[0]] + rest[0]] + rest[1..]
  }

  /** `sep.join(parts)` (an f-string with separators between its pieces). */
  function Join(parts: seq<string>, sep: char): string
    requires |parts| >= 1
  {
    if |parts| == 1 then parts[0] else parts[0] + [sep] + Join(parts[1..], sep)
  }

  /** Joining the pieces of a split gives back the text. */
  lemma {:induction false} JoinSplit(s: string, sep: char)
    ensures Join(Split(s, sep), sep) == s
  {
    if s != [] {
      var rest := Split(s[1..], sep);
      JoinSplit(s[1..], sep);
      if s[0] == sep {
        assert ([""] + rest)[1..] == rest;
      } else {
        var parts := [[s[0]] + rest[0]] + rest[1..];
        if |rest| == 1 {
          assert parts == [[s[0]] + rest[0]];
        } else {
          assert parts[1..] == rest[1..];
          assert Join(rest, sep) == rest[0] + [sep] + Join(rest[1..], sep);
        }
      }
    }
  }

  /** A piece without the separator, followed by the separator, splits off as the first piece. */
  lemma {:induction false} SplitFirst(p: string, r: string, sep: char)
    requires sep !in p
    ensures Split(p + [sep] + r, sep) == [p] + Split(r, sep)
    ensures Split(p, sep) == [p]
  {
    if p == [] {
      assert [] + [sep] + r == [sep] + r;
      assert ([sep] + r)[1..] == r;
    } else {
      SplitFirst(p[1..], r, sep);
      assert (p + [sep] + r)[1..] == p[1..] + [sep] + r;
      assert [p[0]] + p[1..] == p;
    }
  }

  /** Splitting the join of pieces that do not contain the separator gives back the pieces. */
  lemma {:induction false} SplitJoin(parts: seq<string>, sep: char)
    requires |parts| >= 1
    requires forall i :: 0 <= i < |parts| ==> sep !in parts[i]
    ensures Split(Join(parts, sep), sep) == parts
  {
    if |parts| == 1 {
      SplitFirst(parts[0], [], sep);
    } else {
      SplitJoin(parts[1..], sep);
      SplitFirst(parts[0], Join(parts[1..], sep), sep);
    }
  }

  /** `registered_users`: name to (ip, udp port, tcp port), all as the text that came in. */
  type Users = map<string, (string, string, string)>

  const MaxClients := 100
  const NameInUse := "Name already in use"
  const ServerFull := "Server cannot handle more clients"

  /** What one datagram does: the new dictionary, the reply if any, and whether the server stopped. */
  datatype Outcome = Outcome(users: Users, reply: Option<string>, crash: bool)

  /** The body of the `while True` loop on one request already split into fields. */
  function Handle(users: Users, request: seq<string>): (o: Outcome)
    requires |request| >= 1
    ensures o.crash ==> o.users == users && o.reply.None?
    ensures request[0] != "REGISTER" && request[0] != "DE-REGISTER" ==> o == Outcome(users, None, false)
    ensures forall n :: n in users && (|request| < 3 || n != request[2]) ==> n in o.users && o.users[n] == users[n]
    ensures forall n :: n in o.users && n !in users ==> request[0] == "REGISTER" && |request| >= 6 && n == request[2]
  {
    if request[0] == "REGISTER" then
      if |request| < 3 then Outcome(users, None, true)
      else if request[2] in users then Outcome(users, Some(Join(["REGISTER-DENIED", request[1], NameInUse], '\n')), false)
      else if |users| >= MaxClients then Outcome(users, Some(Join(["REGISTER-DENIED", request[1], ServerFull], '\n')), false)
      else if |request| < 6 then Outcome(users, None, true)
      else Outcome(users[request[2] := (request[3], request[4], request[5])], Some(Join(["REGISTER-ACCEPTED", request[1]], '\n')), false)
    else if request[0] == "DE-REGISTER" then
      if |request| < 3 then Outcome(users, None, true)
      else if request[2] in users then Outcome(users - {request[2]}, Some(Join(["DE-REGISTER-ACCEPTED", request[1]], '\n')), false)
      else Outcome(users, Some(Join(["DE-REGISTER-IGNORED", request[1]], '\n')), false)
    else Outcome(users, None, false)
  }

  /** No step takes the dictionary past 100 names. */
  lemma HandleKeepsCap(users: Users, request: seq<string>)
    requires |request| >= 1 && |users| <= MaxClients
    ensures |Handle(users, request).users| <= MaxClients
  {
    if request[0] == "DE-REGISTER" && |request| >= 3 && request[2] in users {
      assert (users - {request[2]}).Keys == users.Keys - {request[2]};
      assert |users.Keys - {request[2]}| == |users.Keys| - 1;
    }
  }

  /**
   * A complete REGISTER is accepted exactly when the name is new and fewer than 100 names are
   * stored; it is then stored with its address and ports. Otherwise nothing changes.
   */
  lemma RegisterOutcome(users: Users, request: seq<string>)
    requires |request| >= 6 && request[0] == "REGISTER"
    ensures var o := Handle(users, request);
      && !o.crash && o.reply.Some?
      && (request[2] in o.users.Keys - users.Keys <==> request[2] !in users && |users| < MaxClients)
      && (request[2] in o.users.Keys - users.Keys ==> o.users == users[request[2] := (request[3], request[4], request[5])])
      && (request[2] !in o.users.Keys - users.Keys ==> o.users == users)
  {
  }

  /** A name registered and then deregistered leaves the dictionary as it was. */
  lemma RegisterThenDeregister(users: Users, reg: seq<string>, dereg: seq<string>)
    requires |reg| >= 6 && reg[0] == "REGISTER" && reg[2] !in users && |users| < MaxClients
    requires |dereg| >= 3 && dereg[0] == "DE-REGISTER" && dereg[2] == reg[2]
    ensures Handle(Handle(users, reg).users, dereg).users == users
    ensures Handle(Handle(users, reg).users, dereg).reply == Some(Join(["DE-REGISTER-ACCEPTED", dereg[1]], '\n'))
  {
    var u := Handle(users, reg).users;
    assert u - {reg[2]} == users;
  }

  /** A second DE-REGISTER of the same name is ignored and changes nothing. */
  lemma DeregisterIdempotent(users: Users, dereg: seq<string>)
    requires |dereg| >= 3 && dereg[0] == "DE-REGISTER"
    ensures var once := Handle(users, dereg).users;
      && Handle(once, dereg).users == once
      && Handle(once, dereg).reply == Some(Join(["DE-REGISTER-IGNORED", dereg[1]], '\n'))
  {
  }

  /** Every reply to a datagram splits back into a verdict line and the request number the datagram carried. */
  lemma ReplyEchoesRequestNumber(users: Users, message: string)
    requires Handle(users, Split(message, '\n')).reply.Some?
    ensures var request := Split(message, '\n');
      var lines := Split(Handle(users, request).reply.value, '\n');
      && 2 <= |lines| <= 3 && lines[1] == request[1]
      && lines[0] in {"REGISTER-DENIED", "REGISTER-ACCEPTED", "DE-REGISTER-ACCEPTED", "DE-REGISTER-IGNORED"}
  {
    var request := Split(message, '\n');
    var o := Handle(users, request);
    assert |request| >= 3;
    var rq := request[1];
    assert '\n' !in rq;
    var parts;
    if request[0] == "REGISTER" {
      if request[2] in users {
        parts := ["REGISTER-DENIED", rq, NameInUse];
      } else if |users| >= MaxClients {
        parts := ["REGISTER-DENIED", rq, ServerFull];
      } else {
        parts := ["REGISTER-ACCEPTED", rq];
      }
    } else if request[2] in users {
      parts := ["DE-REGISTER-ACCEPTED", rq];
    } else {
      parts := ["DE-REGISTER-IGNORED", rq];
    }
    assert o.reply.value == Join(parts, '\n');
    NoNewline(parts);
    SplitJoin(parts, '\n');
  }

  /** None of the fixed reply lines contains a newline, and a request number split off a datagram has none either. */
  lemma NoNewline(parts: seq<string>)
    requires 2 <= |parts| <= 3 && '\n' !in parts[1]
    requires parts[0] in {"REGISTER-DENIED", "REGISTER-ACCEPTED", "DE-REGISTER-ACCEPTED", "DE-REGISTER-IGNORED"}
    requires |parts| == 3 ==> parts[2] in {NameInUse, ServerFull}
    ensures forall i :: 0 <= i < |parts| ==> '\n' !in parts[i]
  {
  }

  /** The server after a run of datagrams, stopping at the first that crashes it. */
  function Replay(users: Users, sent: seq<(string, Addr)>, inbox: seq<(string, Addr)>): (r: (Users, bool, seq<(string, Addr)>))
    ensures |sent| <= |r.2| <= |sent| + |inbox| && r.2[..|sent|] == sent
    decreases inbox
  {
    if inbox == [] then (users, false, sent)
    else
      var o := Handle(users, Split(inbox[0].0, '\n'));
      var sent' := sent + (if o.reply.Some? then [(o.reply.value, inbox[0].1)] else []);
      if o.crash then (o.users, true, sent') else Replay(o.users, sent', inbox[1..])
  }

  /** However many datagrams arrive, the dictionary never holds more than 100 names. */
  lemma {:induction false} ReplayKeepsCap(users: Users, sent: seq<(string, Addr)>, inbox: seq<(string, Addr)>)
    requires |users| <= MaxClients
    ensures |Replay(users, sent, inbox).0| <= MaxClients
    decreases inbox
  {
    if inbox != [] {
      var o := Handle(users, Split(inbox[0].0, '\n'));
      HandleKeepsCap(users, Split(inbox[0].0, '\n'));
      var sent' := sent + (if o.reply.Some? then [(o.reply.value, inbox[0].1)] else []);
      if !o.crash {
        ReplayKeepsCap(o.users, sent', inbox[1..]);
      }
    }
  }

  class PrototypeServer {
    var registeredUsers: Users
    /** Set once an uncaught exception has ended the loop. */
    var crashed: bool
    /** Every reply sent, with the address it went to. */
    ghost var sent: seq<(string, Addr)>

    ghost predicate Valid()
      reads this
    {
      |registeredUsers| <= MaxClients
    }

    constructor ()
      ensures registeredUsers == map[] && !crashed && sent == [] && Valid()
    {
      registeredUsers, crashed, sent := map[], false, [];
    }

    /** One iteration of the loop: the datagram `message` from `addr`. */
    method HandleDatagram(message: string, addr: Addr)
      requires Valid() && !crashed
      modifies this
      ensures Valid()
      ensures var o := Handle(old(registeredUsers), Split(message, '\n'));
        && registeredUsers == o.users && crashed == o.crash
        && sent == old(sent) + (if o.reply.Some? then [(o.reply.value, addr)] else [])
    {
      var request := Split(message, '\n');
      HandleKeepsCap(registeredUsers, request);
      if request[0] == "REGISTER" {
        if |request| < 3 {
          crashed := true;
          return;
        }
        var response;
        if request[2] in registeredUsers {
          response := Join(["REGISTER-DENIED", request[1], NameInUse], '\n');
        } else if |registeredUsers| >= MaxClients {
          response := Join(["REGISTER-DENIED", request[1], ServerFull], '\n');
        } else {
          if |request| < 6 {
            crashed := true;
            return;
          }
          registeredUsers := registeredUsers[request[2] := (request[3], request[4], request[5])];
          response := Join(["REGISTER-ACCEPTED", request[1]], '\n');
        }
        sent := sent + [(response, addr)];
      } else if request[0] == "DE-REGISTER" {
        if |request| < 3 {
          crashed := true;
          return;
        }
        var response;
        if request[2] in registeredUsers {
          registeredUsers := registeredUsers - {request[2]};
          response := Join(["DE-REGISTER-ACCEPTED", request[1]], '\n');
        } else {
          response := Join(["DE-REGISTER-IGNORED", request[1]], '\n');
        }
        sent := sent + [(response, addr)];
      }
    }

    /** The `while True` loop over the datagrams that arrive, until one of them ends it. */
    method Serve(inbox: seq<(string, Addr)>)
      requires Valid() && !crashed
      modifies this
      ensures Valid()
      ensures (registeredUsers, crashed, sent) == Replay(old(registeredUsers), old(sent), inbox)
    {
      var i := 0;
      while i < |inbox| && !crashed
        invariant 0 <= i <= |inbox| && Valid()
        invariant !crashed ==> Replay(old(registeredUsers), old(sent), inbox) == Replay(registeredUsers, sent, inbox[i..])
        invariant crashed ==> Replay(old(registeredUsers), old(sent), inbox) == (registeredUsers, crashed, sent)
      {
        assert inbox[i..][1..] == inbox[i + 1..];
        HandleDatagram(inbox[i].0, inbox[i].1);
        i := i + 1;
      }
    }
  }
}
