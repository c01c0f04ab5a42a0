/**
 The 80-byte login record: how BSEClient::send_login prints it, how BSESimulator::handle_login reads
 it, and what the client learns from the reply.
 */
module LoginCodec {
  import opened Bytes
  import opened Framing
  import opened Protocol
  import opened Registry
  import opened Sequences

  const PASSWORD_WIDTH: nat := 64
  const TIMESTAMP_WIDTH: nat := 8

  // ---------------------------------------------------------------- the record

  /** Short passwords are padded with spaces on the right before strncpy. */
  function Padded(pwd: seq<Byte>): seq<Byte> {
    if |pwd| < PASSWORD_WIDTH then pwd + Repeat(0x20, PASSWORD_WIDTH - |pwd|) else pwd
  }

  function PasswordField(pwd: seq<Byte>): (field: seq<Byte>)
    ensures |field| == PASSWORD_WIDTH
  {
    StrNCopy(Padded(pwd), PASSWORD_WIDTH)
  }

  function LoginHead(code: bv16): (head: seq<Byte>)
    ensures |head| == 8
  {
    Wire32(FEED_LOGIN_TYPE) + Wire16(code) + [0, 0]
  }

  function LoginRecord(code: bv16, pwd: seq<Byte>, timestamp: seq<Byte>): (record: seq<Byte>)
    ensures |record| == LOGIN_SIZE
  {
    LoginHead(code) + PasswordField(pwd) + StrNCopy(timestamp, TIMESTAMP_WIDTH)
  }

  /** The part of a password that fits the field: up to a NUL, at most 64 characters. */
  function Fitting(pwd: seq<Byte>): seq<Byte> {
    if |CString(pwd)| > PASSWORD_WIDTH then CString(pwd)[..PASSWORD_WIDTH] else CString(pwd)
  }

  function DecodedCode(record: seq<Byte>): bv16
    requires |record| == LOGIN_SIZE
  {
    Read16(record[4..6])
  }

  function DecodedPassword(record: seq<Byte>): seq<Byte>
    requires |record| == LOGIN_SIZE
  {
    Trimmed(CString(record[8..72]))
  }

  lemma SpacesAreSpace(n: nat)
    ensures AllSpace(Repeat(0x20, n)) && 0 !in Repeat(0x20, n)
  {
  }

  lemma PaddedText(pwd: seq<Byte>)
    requires |pwd| < PASSWORD_WIDTH
    ensures CString(Padded(pwd)) == if |CString(pwd)| < |pwd| then CString(pwd) else Padded(pwd)
    ensures Trimmed(Padded(pwd)) == Trimmed(pwd)
  {
    var padded, text, spaces := Padded(pwd), CString(pwd), Repeat(0x20, PASSWORD_WIDTH - |pwd|);
    SpacesAreSpace(PASSWORD_WIDTH - |pwd|);
    TrimmedPadding(pwd, spaces);
    if |text| < |pwd| {
      assert padded[|text|] == pwd[|text|];
      BeforeIs(padded, 0, text);
    } else {
      assert text == pwd && 0 !in padded;
      BeforeIs(padded, 0, padded);
    }
  }

  /** Padding never reaches a password that is cut short by a NUL, and is trimmed off any other. */
  lemma PasswordFieldText(pwd: seq<Byte>)
    ensures Trimmed(CString(PasswordField(pwd))) == Trimmed(Fitting(pwd))
  {
    var padded, text := Padded(pwd), CString(pwd);
    StrNCopyText(padded, PASSWORD_WIDTH);
    if |pwd| < PASSWORD_WIDTH {
      PaddedText(pwd);
      assert padded[..PASSWORD_WIDTH] == padded;
      assert |text| == |pwd| ==> text == pwd;
    } else {
      assert |text| == PASSWORD_WIDTH ==> text[..PASSWORD_WIDTH] == text;
    }
  }

  lemma RecordFields(code: bv16, pwd: seq<Byte>, timestamp: seq<Byte>)
    ensures
      var record := LoginRecord(code, pwd, timestamp);
      && record[..4] == Wire32(FEED_LOGIN_TYPE)
      && record[4..6] == Wire16(code)
      && record[8..72] == PasswordField(pwd)
      && record[72..] == StrNCopy(timestamp, TIMESTAMP_WIDTH)
  {
    var head, field, ts := LoginHead(code), PasswordField(pwd), StrNCopy(timestamp, TIMESTAMP_WIDTH);
    var record := LoginRecord(code, pwd, timestamp);
    FourFields(head, field, ts, []);
    assert head + field + ts + [] == record;
    FourFields(Wire32(FEED_LOGIN_TYPE), Wire16(code), [0, 0], []);
    assert record[..8] == head;
    assert record[..4] == head[..4] && record[4..6] == head[4..6];
    assert record[72..] == record[72..80];
  }

  /** The framer of the server takes the record as one whole login message, whatever the password. */
  lemma RecordIsOneMessage(code: bv16, pwd: seq<Byte>, timestamp: seq<Byte>)
    ensures WellFormed(SERVER, Message(FEED_LOGIN, LoginRecord(code, pwd, timestamp)))
  {
    RecordFields(code, pwd, timestamp);
    FieldRoundTrip(code, FEED_LOGIN_TYPE);
  }

  /**
   Round trip, for every code and every byte string as password: the server reads the code that was
   sent, and the trimmed part of the password that fits.
   */
  lemma {:induction false} LoginRoundTrip(code: bv16, pwd: seq<Byte>, timestamp: seq<Byte>)
    ensures
      var record := LoginRecord(code, pwd, timestamp);
      && DecodedCode(record) == code
      && DecodedPassword(record) == Trimmed(Fitting(pwd))
  {
    RecordFields(code, pwd, timestamp);
    FieldRoundTrip(code, FEED_LOGIN_TYPE);
    PasswordFieldText(pwd);
  }

  /** A password survives the trip unchanged exactly if it fits, has no NUL, and no outer white space. */
  lemma PasswordSurvivesIff(pwd: seq<Byte>)
    ensures Trimmed(Fitting(pwd)) == pwd <==> 0 !in pwd && |pwd| <= PASSWORD_WIDTH && NoOuterSpace(pwd)
  {
    var a, b := TrimmedSplit(Fitting(pwd));
    if Trimmed(Fitting(pwd)) == pwd {
      assert |pwd| <= |Fitting(pwd)| <= |CString(pwd)| <= |pwd|;
      assert CString(pwd) == pwd;
    }
    if 0 !in pwd {
      BeforeIs(pwd, 0, pwd);
    }
    TrimmedPadding(pwd, []);
  }

  /** Neither end is one of the six characters trim removes. */
  predicate PlainEnds(pwd: seq<Byte>) {
    pwd != [] ==>
      && pwd[0] !in {0x20, 0x09, 0x0a, 0x0b, 0x0c, 0x0d}
      && pwd[|pwd| - 1] !in {0x20, 0x09, 0x0a, 0x0b, 0x0c, 0x0d}
  }

  /** A text that fills the field stands in it as it is. */
  lemma FieldOfText(text: seq<Byte>, width: nat)
    requires 0 !in text && |text| == width
    ensures StrNCopy(text, width) == text
  {
    BeforeIs(text, 0, text);
    assert text[..width] == text;
  }

  lemma PaddedPlain(pwd: seq<Byte>)
    requires |pwd| <= 64
    ensures Padded(pwd) == pwd + Repeat(0x20, 64 - |pwd|)
    ensures |Padded(pwd)| == 64 && (0 !in pwd ==> 0 !in Padded(pwd))
  {
    if |pwd| == 64 {
      EmptyUnit(pwd);
    } else {
      SpacesAreSpace(64 - |pwd|);
    }
  }

  lemma PlainField(pwd: seq<Byte>)
    requires 0 !in pwd && |pwd| <= 64
    ensures PasswordField(pwd) == pwd + Repeat(0x20, 64 - |pwd|)
  {
    PaddedPlain(pwd);
    var text := Padded(pwd);
    FieldOfText(text, PASSWORD_WIDTH);
  }

  lemma PlainFits(pwd: seq<Byte>)
    requires 0 !in pwd
    ensures Fitting(pwd) == if |pwd| > 64 then pwd[..64] else pwd
  {
    BeforeIs(pwd, 0, pwd);
  }

  /** An ordinary password stands in its field as it is, with spaces behind it, and is read back unchanged. */
  lemma PlainPassword(code: bv16, pwd: seq<Byte>, timestamp: seq<Byte>)
    requires 0 !in pwd && |pwd| <= 64 && PlainEnds(pwd)
    ensures
      var record := LoginRecord(code, pwd, timestamp);
      && DecodedCode(record) == code && DecodedPassword(record) == pwd
      && record[8..72] == pwd + Repeat(0x20, 64 - |pwd|)
  {
    LoginRoundTrip(code, pwd, timestamp);
    PlainField(pwd);
    PlainFits(pwd);
    TrimmedWhite([], pwd, []);
    RecordFields(code, pwd, timestamp);
  }

  /** A longer one is cut to 64 characters. */
  lemma LongPassword(code: bv16, pwd: seq<Byte>, timestamp: seq<Byte>)
    requires 0 !in pwd && |pwd| > 64
    ensures LoginRecord(code, pwd, timestamp)[8..72] == pwd[..64]
    ensures PlainEnds(pwd[..64]) ==> DecodedPassword(LoginRecord(code, pwd, timestamp)) == pwd[..64]
  {
    LoginRoundTrip(code, pwd, timestamp);
    RecordFields(code, pwd, timestamp);
    BeforeIs(pwd, 0, pwd);
    if PlainEnds(pwd[..64]) {
      TrimmedWhite([], pwd[..64], []);
    }
  }

  // ---------------------------------------------------------------- both ends of a login

  /** Write the next field of a cleared record; done is what has been written so far. */
  method StoreField(record: array<Byte>, ghost done: seq<Byte>, at: nat, field: seq<Byte>)
    requires at == |done| && at + |field| <= record.Length
    requires record[..] == done + Repeat(0, record.Length - at)
    modifies record
    ensures record[..] == (done + field) + Repeat(0, record.Length - at - |field|)
  {
    forall i | 0 <= i < |field| {
      record[at + i] := field[i];
    }
    assert forall i :: 0 <= i < at ==> record[i] == old(record[..])[i];
    assert forall i :: at + |field| <= i < record.Length ==> record[i] == old(record[..])[i];
  }

  lemma ClearedPrefix(m: nat, n: nat)
    ensures Repeat(0, m) + Repeat(0, n) == Repeat(0, m + n)
  {
  }

  /** send_login: clear the record, then fill it field by field; the filler stays clear. */
  method SendLogin(code: bv16, pwd: seq<Byte>, timestamp: seq<Byte>) returns (record: array<Byte>)
    ensures fresh(record) && record[..] == LoginRecord(code, pwd, timestamp)
  {
    record := new Byte[LOGIN_SIZE](_ => 0);
    var msgType, password, ts := Wire32(FEED_LOGIN_TYPE), PasswordField(pwd), StrNCopy(timestamp, TIMESTAMP_WIDTH);
    assert record[..] == [] + Repeat(0, 80);
    StoreField(record, [], 0, msgType);
    EmptyUnit(msgType);
    StoreField(record, msgType, 4, Wire16(code));
    ghost var head := msgType + Wire16(code);
    ClearedPrefix(2, 72);
    AppendAssoc(head, [0, 0], Repeat(0, 72));
    assert Repeat(0, 2) == [0, 0];
    StoreField(record, head + [0, 0], 8, password);
    StoreField(record, head + [0, 0] + password, 72, ts);
    EmptyUnit(head + [0, 0] + password + ts);
  }

  /** The fields handle_login takes out of a record; the password is trimmed in place. */
  method ReadLogin(record: seq<Byte>) returns (code: bv16, pwd: seq<Byte>)
    requires |record| == LOGIN_SIZE
    ensures code == DecodedCode(record) && pwd == DecodedPassword(record)
  {
    code := Read16(record[4..6]);
    var text := new MutableString(CString(record[8..72]));
    text.Trim();
    pwd := text.chars;
  }

  function Value16(v: bv16): (n: int)
    ensures 0 <= n < 65536
  {
    v as int
  }

  /** handle_login on a whole record: look up, register, reply. */
  method HandleLogin(server: BseSimulator, fd: int, record: seq<Byte>, sys: Inotify) returns (reply: seq<Byte>)
    requires |record| == LOGIN_SIZE && server.Valid()
    requires Possible(server.State(), Login(fd, Value16(DecodedCode(record)), DecodedPassword(record), sys))
    modifies server
    ensures server.Valid()
    ensures
      var login := Login(fd, Value16(DecodedCode(record)), DecodedPassword(record), sys);
      server.State() == After(server.accounts, old(server.State()), login)
    ensures reply == ReplyTo(server.accounts, record)
  {
    var code, pwd := ReadLogin(record);
    var flag := server.HandleLogin(fd, Value16(code), pwd, sys);
    reply := LoginReply(FEED_LOGIN_TYPE, code, flag);
  }

  function ReplyTo(accounts: map<int, Account>, record: seq<Byte>): (reply: seq<Byte>)
    requires |record| == LOGIN_SIZE
    ensures |reply| == 12
  {
    var code := DecodedCode(record);
    LoginReply(FEED_LOGIN_TYPE, code, if Accepts(accounts, Value16(code), DecodedPassword(record)) then 0 else 0xfffe)
  }

  /** SuccessFlag as the client sees it: the two bytes reversed, read as int16_t. */
  function ReplyFlag(reply: seq<Byte>): int
    requires |reply| == 12
  {
    Signed16(Read16(reply[10..12]))
  }

  function Signed16(v: bv16): (n: int)
    ensures -32768 <= n < 32768 && (n - v as int) % 65536 == 0
  {
    if Value16(v) < 32768 then Value16(v) else Value16(v) - 65536
  }

  lemma FlagValues()
    ensures Signed16(0) == 0 && Signed16(0xfffe) == -2
  {
  }

  /**
   The handshake: the reply to a client's login is one whole frame with the client's own code, and
   its flag is 0, which starts the queries, exactly if the account exists and its password is what
   remains of the one the client was configured with.
   */
  lemma {:induction false} HandshakeTellsTruth(accounts: map<int, Account>, code: bv16, pwd: seq<Byte>,
      timestamp: seq<Byte>)
    ensures
      var reply := ReplyTo(accounts, LoginRecord(code, pwd, timestamp));
      && WellFormed(CLIENT, Message(FEED_LOGIN, reply)) && Read16(reply[8..10]) == code
      && (ReplyFlag(reply) == 0 <==> code as int in accounts && accounts[code as int].pwd == Trimmed(Fitting(pwd)))
      && (ReplyFlag(reply) != 0 ==> ReplyFlag(reply) == -2)
  {
    var record := LoginRecord(code, pwd, timestamp);
    LoginRoundTrip(code, pwd, timestamp);
    RepliesAreFrames(FEED_LOGIN_TYPE, code, 0, 0);
    RepliesAreFrames(FEED_LOGIN_TYPE, code, 0xfffe, 0);
    FlagValues();
    if Accepts(accounts, Value16(code), DecodedPassword(record)) {
      assert ReplyTo(accounts, record) == LoginReply(FEED_LOGIN_TYPE, code, 0);
    } else {
      assert ReplyTo(accounts, record) == LoginReply(FEED_LOGIN_TYPE, code, 0xfffe);
    }
  }

  /** For an ordinary password: the client may start its queries exactly if the account has that password. */
  lemma PlainHandshake(accounts: map<int, Account>, code: bv16, pwd: seq<Byte>, timestamp: seq<Byte>)
    requires 0 !in pwd && |pwd| <= 64 && PlainEnds(pwd)
    ensures
      var reply := ReplyTo(accounts, LoginRecord(code, pwd, timestamp));
      && (ReplyFlag(reply) == 0 <==> code as int in accounts && accounts[code as int].pwd == pwd)
      && (ReplyFlag(reply) != 0 ==> ReplyFlag(reply) == -2)
  {
    HandshakeTellsTruth(accounts, code, pwd, timestamp);
    LoginRoundTrip(code, pwd, timestamp);
    PlainPassword(code, pwd, timestamp);
  }
}
