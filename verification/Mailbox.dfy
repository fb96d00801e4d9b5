/** The mailbox: all mails of a user in one text (frontend/mail/mbox.h and mail.h).
    A parser splits the text at header lines, a printer writes it back. */
module Mailbox {
  import opened Text

  datatype Mail = Mail(id: nat, usr: string, time: string, text: string)

  const NO_MAIL: Mail := Mail(0, "", "", "")

  const UINT64_MAX: nat := 0xffff_ffff_ffff_ffff

  // ---- Header lines: FROM <.+@.+> ... ... .. ........ .... ----

  /** `.` of an ECMAScript expression. */
  predicate IsDot(c: char) {
    c != '\n' && c != '\r'
  }

  predicate AllDots(s: string) {
    forall i :: 0 <= i < |s| ==> IsDot(s[i])
  }

  predicate IsLetterOf(c: char, upper: char, lower: char) {
    c == upper || c == lower
  }

  /** "FROM <", ignoring case. */
  predicate IsFromPrefix(s: string) {
    && |s| == 6 && IsLetterOf(s[0], 'F', 'f') && IsLetterOf(s[1], 'R', 'r') && IsLetterOf(s[2], 'O', 'o')
    && IsLetterOf(s[3], 'M', 'm') && s[4] == ' ' && s[5] == '<'
  }

  /** `.+@.+` */
  predicate IsAddress(s: string) {
    AllDots(s) && exists j :: 0 < j < |s| - 1 && s[j] == '@'
  }

  /** `... ... .. ........ ....`, the shape of ctime without its newline. */
  predicate IsTime(s: string) {
    |s| == 24 && AllDots(s) && s[3] == s[7] == s[10] == s[19] == ' '
  }

  /** The last 26 characters of a header have a fixed shape, so the match is unique. */
  predicate IsHeader(line: string) {
    var n := |line|;
    && n >= 32 && IsFromPrefix(line[..6]) && IsAddress(line[6..n - 26])
    && line[n - 26] == '>' && line[n - 25] == ' ' && IsTime(line[n - 24..])
  }

  /** The parts of a match of the header's expression. */
  ghost predicate HeaderOf(line: string, from: string, name: string, domain: string, time: string) {
    && IsFromPrefix(from) && name != "" && domain != "" && AllDots(name) && AllDots(domain) && IsTime(time)
    && line == from + (name + "@" + domain) + "> " + time
  }

  /** The fixed positions find a header exactly where the whole line matches. */
  lemma HeaderIff(line: string)
    ensures IsHeader(line) <==> exists from, name, domain, time :: HeaderOf(line, from, name, domain, time)
  {
    hide IsFromPrefix, IsTime, AllDots;
    if IsHeader(line) {
      var n := |line|;
      var usr := line[6..n - 26];
      var j := AddressSplits(usr);
      assert line[n - 26..n - 24] == "> ";
      assert line == line[..6] + usr + line[n - 26..n - 24] + line[n - 24..];
      assert HeaderOf(line, line[..6], usr[..j], usr[j + 1..], line[n - 24..]);
    }
    if exists from, name, domain, time :: HeaderOf(line, from, name, domain, time) {
      var from, name, domain, time :| HeaderOf(line, from, name, domain, time);
      AddressJoins(name, domain);
      Lengths(from, time);
      HeaderAt(line, from, name + "@" + domain, time);
    }
  }

  lemma AddressSplits(usr: string) returns (j: nat)
    requires IsAddress(usr)
    ensures 0 < j < |usr| - 1 && usr == usr[..j] + "@" + usr[j + 1..] && AllDots(usr[..j]) && AllDots(usr[j + 1..])
  {
    j :| 0 < j < |usr| - 1 && usr[j] == '@';
  }

  lemma AddressJoins(name: string, domain: string)
    requires name != "" && domain != "" && AllDots(name) && AllDots(domain)
    ensures IsAddress(name + "@" + domain) && name + "@" + domain != ""
  {
    assert (name + "@" + domain)[|name|] == '@';
  }

  lemma Lengths(from: string, time: string)
    requires IsFromPrefix(from) && IsTime(time)
    ensures |from| == 6 && |time| == 24
  {
  }

  lemma HeaderAt(line: string, from: string, usr: string, time: string)
    requires |from| == 6 && |time| == 24 && usr != "" && line == from + usr + "> " + time
    requires IsFromPrefix(from) && IsAddress(usr) && IsTime(time)
    ensures IsHeader(line)
  {
    hide IsFromPrefix, IsAddress, IsTime;
    var n := |line|;
    assert n == 6 + |usr| + 26;
    assert line[..6] == from && line[6..n - 26] == usr && line[n - 24..] == time;
    assert line[n - 26] == '>' && line[n - 25] == ' ';
  }

  // ---- Printing (frontend/mail/mail.h:33-43) ----

  /** A sender without a domain is printed with the local one. */
  function WithDomain(usr: string): string {
    if '@' in usr then usr else usr + "@localhost"
  }

  function ToLocalString(m: Mail): string {
    "From <" + WithDomain(m.usr) + "> " + m.time + Dec(m.id) + "\n" + m.text
  }

  function PrintAll(ms: seq<Mail>): string {
    if ms == [] then "" else ToLocalString(ms[0]) + PrintAll(ms[1..])
  }

  // ---- Parsing (frontend/mail/mbox.h:45-78) ----

  predicate IsEmpty(m: Mail) {
    m.id == 0 && m.usr == "" && m.text == ""
  }

  /** The variables of the parser. */
  datatype Box = Box(mail: Mail, mails: seq<Mail>, currentId: nat)

  const NO_BOX: Box := Box(NO_MAIL, [], 0)

  function Pushed(b: Box): seq<Mail> {
    if IsEmpty(b.mail) then b.mails else b.mails + [b.mail]
  }

  function DigitPrefix(s: string): (n: nat)
    ensures n <= |s| && AllDigits(s[..n])
  {
    if s == "" || !IsDigit(s[0]) then 0
    else
      var m := DigitPrefix(s[1..]);
      assert s[..m + 1] == [s[0]] + s[1..][..m];
      m + 1
  }

  /** `std::stoull`: behind blanks and a sign, the number at the front. Without a digit, or
      beyond 64 bits, it throws; a minus sign negates the number in 64-bit arithmetic. */
  function Stoull64(s: string): Option<nat> {
    var t := SkipBlanks(s);
    var signed, minus := t != "" && (t[0] == '+' || t[0] == '-'), t != "" && t[0] == '-';
    var u := if signed then t[1..] else t;
    var n := DigitPrefix(u);
    if n == 0 || ParseDec(u[..n]) > UINT64_MAX then None
    else if minus && ParseDec(u[..n]) > 0 then Some(UINT64_MAX + 1 - ParseDec(u[..n]))
    else Some(ParseDec(u[..n]))
  }

  function Max(a: nat, b: nat): nat {
    if a < b then b else a
  }

  /** The box after a header line and its id line. */
  function Opened(b: Box, line: string, id: nat): Box
    requires IsHeader(line)
  {
    var n := |line|;
    Box(Mail(id, line[6..n - 26], line[n - 24..] + "\n", ""), Pushed(b), Max(id, b.currentId))
  }

  function Extended(b: Box, line: string): Box {
    if IsEmpty(b.mail) then b else b.(mail := b.mail.(text := b.mail.text + line + "\n"))
  }

  /** The parser from a point of the text on; None when an id line makes it throw. */
  function Parse(text: string, b: Box): Option<Box>
    decreases |text|
  {
    if text == "" then Some(b.(mails := Pushed(b)))
    else
      var line, rest := Line(text), AfterLine(text);
      if !IsHeader(line) then Parse(rest, Extended(b, line))
      else if rest == "" || Stoull64(Line(rest)) == None then None
      else Parse(AfterLine(rest), Opened(b, line, Stoull64(Line(rest)).value))
  }

  /** The mails a reader of this text gets. */
  function MailsIn(text: string): Option<seq<Mail>> {
    match Parse(text, NO_BOX)
    case None => None
    case Some(b) => Some(b.mails)
  }

  // ---- Round trip ----

  /** What the parser makes of a mail: the sender carries a domain. */
  function Normal(m: Mail): Mail {
    m.(usr := WithDomain(m.usr))
  }

  /** A sender that a header line can show: an address, or a name without a domain. */
  predicate SenderOk(usr: string) {
    if '@' in usr then IsAddress(usr) else usr != "" && AllDots(usr)
  }

  lemma SenderIsAddress(usr: string)
    requires SenderOk(usr)
    ensures IsAddress(WithDomain(usr)) && '@' in WithDomain(usr)
  {
    var a := WithDomain(usr);
    if '@' !in usr {
      assert a[|usr|] == '@' && 0 < |usr| < |a| - 1;
      assert AllDots("@localhost");
    }
  }

  /** A mail as the system writes it: a plausible sender, the time of ctime, and a text
      of whole lines none of which looks like a header. */
  ghost predicate MailOk(m: Mail) {
    && m.id <= UINT64_MAX && SenderOk(m.usr)
    && (exists t :: IsTime(t) && m.time == t + "\n")
    && (exists lines :: TextLines(lines) && m.text == JoinLines(lines))
  }

  ghost predicate TextLines(lines: seq<string>) {
    forall i :: 0 <= i < |lines| ==> NoNewline(lines[i]) && !IsHeader(lines[i])
  }

  ghost predicate MailsOk(ms: seq<Mail>) {
    forall i :: 0 <= i < |ms| ==> MailOk(ms[i])
  }

  lemma {:induction false} DigitPrefixIs(s: string)
    requires AllDigits(s)
    ensures DigitPrefix(s) == |s|
  {
    if s != "" {
      DigitPrefixIs(s[1..]);
    }
  }

  lemma IdRoundTrip(id: nat)
    requires id <= UINT64_MAX
    ensures Stoull64(Dec(id)) == Some(id)
  {
    DigitPrefixIs(Dec(id));
    DecRoundTrip(id);
    assert IsDigit(Dec(id)[0]) && SkipBlanks(Dec(id)) == Dec(id);
    assert Dec(id)[..|Dec(id)|] == Dec(id);
  }

  lemma DigitsFirst(d: string)
    requires d != "" && AllDigits(d)
    ensures !IsBlank(d[0]) && d[0] != '+' && d[0] != '-' && SkipBlanks(d) == d && DigitPrefix(d) == |d|
    ensures SkipBlanks(" " + d) == d && SkipBlanks("+" + d) == "+" + d && SkipBlanks("-" + d) == "-" + d
    ensures d[..|d|] == d && ("+" + d)[1..] == d && ("-" + d)[1..] == d
  {
    DigitPrefixIs(d);
    assert IsDigit(d[0]);
    assert (" " + d)[1..] == d;
  }

  lemma SignedNumber(s: string, d: string, minus: bool)
    requires d != "" && AllDigits(d) && DigitPrefix(d) == |d| && d[..|d|] == d
    requires SkipBlanks(s) == if minus then "-" + d else "+" + d
    ensures var n := ParseDec(d);
            Stoull64(s) == if n > UINT64_MAX then None else if minus && n > 0 then Some(UINT64_MAX + 1 - n) else Some(n)
  {
    assert ("+" + d)[1..] == d && ("-" + d)[1..] == d;
    hide SkipBlanks, DigitPrefix, ParseDec;
  }

  lemma PlainNumber(s: string, d: string)
    requires d != "" && AllDigits(d) && DigitPrefix(d) == |d| && d[..|d|] == d && d[0] != '+' && d[0] != '-'
    requires SkipBlanks(s) == d
    ensures Stoull64(s) == if ParseDec(d) > UINT64_MAX then None else Some(ParseDec(d))
  {
    hide SkipBlanks, DigitPrefix, ParseDec;
  }

  /** What other id lines mean: blanks and a plus sign do not matter, a minus sign negates
      in 64 bits, a larger number throws. */
  lemma OtherIdLines(n: nat)
    ensures Stoull64(" " + Dec(n)) == Stoull64("+" + Dec(n)) == if n <= UINT64_MAX then Some(n) else None
    ensures Stoull64("-" + Dec(n)) ==
            if n > UINT64_MAX then None else if n > 0 then Some(UINT64_MAX + 1 - n) else Some(0)
  {
    hide Stoull64, SkipBlanks, DigitPrefix, Dec, ParseDec, IsBlank;
    DigitsFirst(Dec(n));
    DecRoundTrip(n);
    PlainNumber(" " + Dec(n), Dec(n));
    SignedNumber("+" + Dec(n), Dec(n), false);
    SignedNumber("-" + Dec(n), Dec(n), true);
  }

  lemma PrintedHeader(usr: string, t: string)
    requires IsAddress(usr) && IsTime(t)
    ensures var line := "From <" + usr + "> " + t; var n := |line|;
            IsHeader(line) && line[6..n - 26] == usr && line[n - 24..] == t && NoNewline(line)
  {
    var line := "From <" + usr + "> " + t;
    var n := |line|;
    assert line[..6] == "From <";
    assert line[6..n - 26] == usr;
    assert line[n - 24..] == t;
  }

  /** Lines of text extend the mail that is open. */
  lemma {:induction false} ParseLines(lines: seq<string>, rest: string, b: Box)
    requires TextLines(lines) && !IsEmpty(b.mail)
    ensures Parse(JoinLines(lines) + rest, b) ==
            Parse(rest, b.(mail := b.mail.(text := b.mail.text + JoinLines(lines))))
    decreases |lines|
  {
    hide IsHeader, NoNewline, Parse;
    if lines == [] {
      assert JoinLines(lines) + rest == rest;
      assert b.mail.text + "" == b.mail.text;
    } else {
      var others := JoinLines(lines[1..]);
      assert JoinLines(lines) + rest == lines[0] + "\n" + (others + rest);
      ParseTextLine(lines[0], others + rest, b);
      var next := Extended(b, lines[0]);
      ParseLines(lines[1..], rest, next);
      assert next.mail.text + others == b.mail.text + JoinLines(lines);
    }
  }

  lemma ParseTextLine(line: string, tail: string, b: Box)
    requires NoNewline(line) && !IsHeader(line)
    ensures Parse(line + "\n" + tail, b) == Parse(tail, Extended(b, line))
  {
    LineOf(line, tail);
  }

  lemma ParseHeader(header: string, id: nat, body: string, b: Box)
    requires NoNewline(header) && IsHeader(header) && id <= UINT64_MAX
    ensures Parse(header + "\n" + (Dec(id) + "\n" + body), b) == Parse(body, Opened(b, header, id))
  {
    hide IsHeader;
    LineOf(header, Dec(id) + "\n" + body);
    DigitsHaveNoNewline(Dec(id));
    LineOf(Dec(id), body);
    IdRoundTrip(id);
  }

  lemma PrintedAs(m: Mail, t: string, rest: string)
    requires m.time == t + "\n"
    ensures ToLocalString(m) + rest ==
            ("From <" + WithDomain(m.usr) + "> " + t) + "\n" + (Dec(m.id) + "\n" + (m.text + rest))
  {
    hide WithDomain, Dec;
    var header := "From <" + WithDomain(m.usr) + "> ";
    assert header + m.time == (header + t) + "\n";
  }

  /** One printed mail is parsed as one mail, and the mail before it is complete. */
  lemma ParseMail(m: Mail, rest: string, b: Box)
    requires MailOk(m)
    ensures Parse(ToLocalString(m) + rest, b) == Parse(rest, Box(Normal(m), Pushed(b), Max(m.id, b.currentId)))
  {
    hide IsHeader, IsAddress, IsTime, Parse, TextLines, NoNewline, SenderOk, WithDomain, ToLocalString;
    var t :| IsTime(t) && m.time == t + "\n";
    var lines :| TextLines(lines) && m.text == JoinLines(lines);
    var usr := WithDomain(m.usr);
    SenderIsAddress(m.usr);
    var header := "From <" + usr + "> " + t;
    PrintedHeader(usr, t);
    PrintedAs(m, t, rest);
    ParseHeader(header, m.id, m.text + rest, b);
    var started := Opened(b, header, m.id);
    AddressNotEmpty(usr);
    ParseLines(lines, rest, started);
    assert "" + m.text == m.text;
  }

  lemma AddressNotEmpty(usr: string)
    requires IsAddress(usr)
    ensures usr != ""
  {
  }

  function Normals(ms: seq<Mail>): seq<Mail> {
    if ms == [] then [] else [Normal(ms[0])] + Normals(ms[1..])
  }

  function MaxId(ms: seq<Mail>, start: nat): nat {
    if ms == [] then start else MaxId(ms[1..], Max(ms[0].id, start))
  }

  function WithMail(b: Box, m: Mail): Box {
    Box(Normal(m), Pushed(b), Max(m.id, b.currentId))
  }

  function WithMails(b: Box, ms: seq<Mail>): Box
    decreases |ms|
  {
    if ms == [] then b.(mails := Pushed(b)) else WithMails(WithMail(b, ms[0]), ms[1..])
  }

  lemma {:induction false} ParseMails(ms: seq<Mail>, b: Box)
    requires MailsOk(ms)
    ensures Parse(PrintAll(ms), b) == Some(WithMails(b, ms))
    decreases |ms|
  {
    hide MailOk, Parse, ToLocalString, Pushed, Normal;
    if ms == [] {
      ParseEnd(b);
    } else {
      ParseMail(ms[0], PrintAll(ms[1..]), b);
      ParseMails(ms[1..], WithMail(b, ms[0]));
    }
  }

  lemma {:induction false} BoxOfMails(ms: seq<Mail>, b: Box)
    requires MailsOk(ms)
    ensures WithMails(b, ms).mails == Pushed(b) + Normals(ms)
    ensures WithMails(b, ms).currentId == MaxId(ms, b.currentId)
    decreases |ms|
  {
    hide MailOk, WithDomain;
    if ms == [] {
      assert Pushed(b) + Normals(ms) == Pushed(b);
    } else {
      var next := WithMail(b, ms[0]);
      NormalNotEmpty(ms[0]);
      BoxOfMails(ms[1..], next);
      Reassociate(Pushed(b), Normal(ms[0]), Normals(ms[1..]));
    }
  }

  lemma Reassociate(a: seq<Mail>, m: Mail, c: seq<Mail>)
    ensures a + [m] + c == a + ([m] + c)
  {
  }

  lemma ParseEnd(b: Box)
    ensures Parse("", b) == Some(b.(mails := Pushed(b)))
  {
  }

  lemma NormalNotEmpty(m: Mail)
    requires MailOk(m)
    ensures !IsEmpty(Normal(m))
  {
    SenderIsAddress(m.usr);
  }

  /** Round trip: parsing the concatenated mails gives the same mails in order, with
      every sender carrying a domain, and the largest id. */
  lemma MailboxRoundTrip(ms: seq<Mail>)
    requires MailsOk(ms)
    ensures MailsIn(PrintAll(ms)) == Some(Normals(ms))
    ensures Parse(PrintAll(ms), NO_BOX).Some? && Parse(PrintAll(ms), NO_BOX).value.currentId == MaxId(ms, 0)
  {
    hide Parse, WithMails, Normals;
    ParseMails(ms, NO_BOX);
    BoxOfMails(ms, NO_BOX);
    assert [] + Normals(ms) == Normals(ms);
  }

  /** What a reader finds of a mail: everything as it was written, but a sender without a
      domain has the local one. */
  predicate Reads(got: Mail, m: Mail) {
    && got.id == m.id && got.time == m.time && got.text == m.text
    && got.usr == if '@' in m.usr then m.usr else m.usr + "@localhost"
  }

  /** The round trip mail by mail. */
  lemma MailsReadBack(ms: seq<Mail>)
    requires MailsOk(ms)
    ensures var got := MailsIn(PrintAll(ms));
            got.Some? && |got.value| == |ms| && forall i :: 0 <= i < |ms| ==> Reads(got.value[i], ms[i])
  {
    hide MailsIn, PrintAll, MailOk;
    MailboxRoundTrip(ms);
    NormalsRead(ms);
  }

  lemma {:induction false} NormalsRead(ms: seq<Mail>)
    ensures |Normals(ms)| == |ms| && forall i :: 0 <= i < |ms| ==> Reads(Normals(ms)[i], ms[i])
  {
    if ms != [] {
      NormalsRead(ms[1..]);
      forall i | 0 <= i < |ms| ensures Reads(Normals(ms)[i], ms[i]) {
        assert i > 0 ==> Normals(ms)[i] == Normals(ms[1..])[i - 1] && ms[i] == ms[1..][i - 1];
      }
    }
  }

  // ---- Deleting and delivering ----

  /** The mails `del` writes back (frontend/mail/mbox.h:81-85). */
  function Keep(ms: seq<Mail>, id: nat): seq<Mail> {
    if ms == [] then []
    else (if ms[0].id != id then [ms[0]] else []) + Keep(ms[1..], id)
  }

  /** The id `write` gives (frontend/mail/mbox.h:105), in 64 bits. */
  function NextId(currentId: nat): nat {
    (currentId + 1) % (UINT64_MAX + 1)
  }

  lemma NormalIsOk(m: Mail)
    requires MailOk(m)
    ensures MailOk(Normal(m)) && Normal(Normal(m)) == Normal(m)
  {
    SenderIsAddress(m.usr);
  }

  lemma {:induction false} KeptAreOk(ms: seq<Mail>, id: nat)
    requires MailsOk(ms)
    ensures MailsOk(Keep(Normals(ms), id)) && Normals(Keep(Normals(ms), id)) == Keep(Normals(ms), id)
  {
    hide MailOk, WithDomain;
    if ms != [] {
      NormalIsOk(ms[0]);
      KeptAreOk(ms[1..], id);
      var m, kept := Normal(ms[0]), Keep(Normals(ms[1..]), id);
      assert Normals(ms)[1..] == Normals(ms[1..]);
      assert Keep(Normals(ms), id) == (if m.id != id then [m] else []) + kept;
      assert ([m] + kept)[1..] == kept && [] + kept == kept;
    }
  }

  /** Deleting id rewrites the box to exactly the other mails, in order. */
  lemma DeleteKeepsOthers(ms: seq<Mail>, id: nat)
    requires MailsOk(ms)
    ensures MailsIn(PrintAll(ms)) == Some(Normals(ms))
    ensures MailsIn(PrintAll(Keep(Normals(ms), id))) == Some(Keep(Normals(ms), id))
  {
    hide MailsIn, MailsOk, PrintAll;
    MailboxRoundTrip(ms);
    KeptAreOk(ms, id);
    MailboxRoundTrip(Keep(Normals(ms), id));
  }

  lemma {:induction false} PrintAllSnoc(ms: seq<Mail>, m: Mail)
    ensures PrintAll(ms + [m]) == PrintAll(ms) + ToLocalString(m)
    ensures Normals(ms + [m]) == Normals(ms) + [Normal(m)]
  {
    hide ToLocalString, Normal;
    if ms == [] {
      assert ms + [m] == [m];
      assert ToLocalString(m) + "" == "" + ToLocalString(m);
    } else {
      assert (ms + [m])[1..] == ms[1..] + [m];
      PrintAllSnoc(ms[1..], m);
    }
  }

  /** Delivering appends exactly the new mail. */
  lemma DeliverAppends(ms: seq<Mail>, m: Mail)
    requires MailsOk(ms) && MailOk(m)
    ensures MailsIn(PrintAll(ms) + ToLocalString(m)) == Some(Normals(ms) + [Normal(m)])
  {
    hide MailsIn, MailOk, PrintAll, Normals;
    PrintAllSnoc(ms, m);
    MailboxRoundTrip(ms + [m]);
  }

  predicate HasId(ms: seq<Mail>, id: nat) {
    exists i :: 0 <= i < |ms| && ms[i].id == id
  }

  lemma {:induction false} MaxIdBounds(ms: seq<Mail>, start: nat)
    ensures start <= MaxId(ms, start)
    ensures forall i :: 0 <= i < |ms| ==> ms[i].id <= MaxId(ms, start)
    ensures MaxId(ms, start) == start || HasId(ms, MaxId(ms, start))
  {
    if ms != [] {
      MaxIdBounds(ms[1..], Max(ms[0].id, start));
      if HasId(ms[1..], MaxId(ms, start)) {
        var i :| 0 <= i < |ms[1..]| && ms[1..][i].id == MaxId(ms, start);
        assert ms[i + 1].id == MaxId(ms, start);
      }
    }
  }

  /** A delivered mail gets an id that no mail in the box has, except exactly when the
      64-bit counter wraps around to 0 while a mail with id 0 exists. */
  lemma DeliveredIdIsFresh(ms: seq<Mail>)
    requires forall i :: 0 <= i < |ms| ==> ms[i].id <= UINT64_MAX
    ensures !HasId(ms, NextId(MaxId(ms, 0))) <==> MaxId(ms, 0) < UINT64_MAX || !HasId(ms, 0)
  {
    hide MaxId;
    MaxIdBounds(ms, 0);
    if MaxId(ms, 0) < UINT64_MAX {
      assert NextId(MaxId(ms, 0)) == MaxId(ms, 0) + 1;
    } else {
      assert NextId(MaxId(ms, 0)) == 0;
    }
  }

  // ---- The MBox object ----

  /** The "mbox" cell of one user in the KV store, without contention. */
  class Cell {
    var value: string

    constructor ()
      ensures value == ""
    {
      value := "";
    }

    method Cput(prev: string, next: string) returns (ok: bool)
      modifies this
      ensures ok <==> old(value) == prev
      ensures value == if ok then next else old(value)
    {
      ok := value == prev;
      if ok {
        value := next;
      }
    }
  }

  class MBox {
    const cell: Cell
    var text: string
    var mails: seq<Mail>
    var currentId: nat

    constructor (cell: Cell)
      ensures this.cell == cell && mails == [] && currentId == 0
    {
      this.cell, text, mails, currentId := cell, "", [], 0;
    }

    /** frontend/mail/mbox.h:24-42 on a fresh object; false when the parser throws. */
    method Init() returns (ok: bool)
      requires mails == [] && currentId == 0
      modifies this
      ensures text == cell.value
      ensures ok <==> Parse(text, NO_BOX).Some?
      ensures ok ==> mails == Parse(text, NO_BOX).value.mails && currentId == Parse(text, NO_BOX).value.currentId
    {
      text := cell.value;
      ok := ParseMails();
    }

    /** frontend/mail/mbox.h:45-78. */
    method ParseMails() returns (ok: bool)
      requires mails == [] && currentId == 0
      modifies `mails, `currentId
      ensures ok <==> Parse(text, NO_BOX).Some?
      ensures ok ==> mails == Parse(text, NO_BOX).value.mails && currentId == Parse(text, NO_BOX).value.currentId
    {
      hide IsHeader, Stoull64;
      var mail := NO_MAIL;
      var ss := text;
      while ss != ""
        invariant Parse(text, NO_BOX) == Parse(ss, Box(mail, mails, currentId))
        decreases |ss|
      {
        var line := Line(ss);
        ss := AfterLine(ss);
        if IsHeader(line) {
          if !IsEmpty(mail) {
            mails := mails + [mail];
          }
          if ss == "" {
            return false;
          }
          HeaderIsLong(line);
          var n := |line|;
          match Stoull64(Line(ss)) {
            case None => return false;
            case Some(id) =>
              mail := Mail(id, line[6..n - 26], line[n - 24..] + "\n", "");
              currentId := Max(id, currentId);
          }
          ss := AfterLine(ss);
        } else if !IsEmpty(mail) {
          mail := mail.(text := mail.text + line + "\n");
        }
      }
      if !IsEmpty(mail) {
        mails := mails + [mail];
      }
      return true;
    }

    /** frontend/mail/mbox.h:80-102. */
    method Del(id: nat) returns (ok: bool)
      modifies cell
      ensures ok <==> old(cell.value) == text
      ensures cell.value == if ok then PrintAll(Keep(mails, id)) else old(cell.value)
    {
      hide PrintAll, Keep, ToLocalString;
      NothingKept(id);
      var postText := "";
      var i := 0;
      assert mails[0..] == mails;
      while i < |mails|
        invariant i <= |mails| && cell.value == old(cell.value)
        invariant postText + PrintAll(Keep(mails[i..], id)) == PrintAll(Keep(mails, id))
      {
        var mail := mails[i];
        KeepStep(mails, i, id);
        Concatenate(postText, if mail.id != id then ToLocalString(mail) else "", PrintAll(Keep(mails[i + 1..], id)));
        if mail.id != id {
          postText := postText + ToLocalString(mail);
        } else {
          assert postText + "" == postText;
        }
        i := i + 1;
      }
      assert mails[i..] == [] && postText + "" == postText;
      ok := cell.Cput(text, postText);
    }

    /** frontend/mail/mbox.h:104-120. */
    method Write(mail: Mail) returns (ok: bool, written: Mail)
      modifies this, cell
      ensures written == mail.(id := NextId(old(currentId)))
      ensures ok <==> old(cell.value) == old(text)
      ensures cell.value == if ok then old(text) + ToLocalString(written) else old(cell.value)
    {
      written := mail.(id := NextId(currentId));
      currentId := NextId(currentId);
      var postText := text + ToLocalString(written);
      ok := cell.Cput(text, postText);
    }
  }

  lemma HeaderIsLong(line: string)
    requires IsHeader(line)
    ensures |line| >= 32
  {
  }

  lemma Concatenate(a: string, b: string, c: string)
    ensures a + (b + c) == a + b + c
  {
  }

  lemma NothingKept(id: nat)
    ensures PrintAll(Keep([], id)) == ""
  {
  }

  lemma KeepStep(ms: seq<Mail>, i: nat, id: nat)
    requires i < |ms|
    ensures PrintAll(Keep(ms[i..], id)) ==
            (if ms[i].id != id then ToLocalString(ms[i]) else "") + PrintAll(Keep(ms[i + 1..], id))
  {
    hide ToLocalString;
    assert ms[i..][1..] == ms[i + 1..];
    if ms[i].id != id {
      assert Keep(ms[i..], id)[1..] == Keep(ms[i + 1..], id);
    } else {
      assert Keep(ms[i..], id) == Keep(ms[i + 1..], id);
    }
  }

  // ---- Whole runs: each request works on a fresh box ----

  datatype Request = Deliver(mail: Mail) | Remove(id: nat)

  /** The text of the cell after one request. */
  function ServeText(text: string, r: Request): Option<string> {
    match Parse(text, NO_BOX)
    case None => None
    case Some(b) =>
      match r
      case Deliver(m) => Some(text + ToLocalString(m.(id := NextId(b.currentId))))
      case Remove(id) => Some(PrintAll(Keep(b.mails, id)))
  }

  /** The same on the list of mails a reader sees. */
  function ServeList(ms: seq<Mail>, r: Request): seq<Mail> {
    match r
    case Deliver(m) => ms + [Normal(m.(id := NextId(MaxId(ms, 0))))]
    case Remove(id) => Keep(ms, id)
  }

  function RunText(rs: seq<Request>): Option<string> {
    if rs == [] then Some("")
    else
      match RunText(rs[..|rs| - 1])
      case None => None
      case Some(text) => ServeText(text, rs[|rs| - 1])
  }

  function RunList(rs: seq<Request>): seq<Mail> {
    if rs == [] then [] else ServeList(RunList(rs[..|rs| - 1]), rs[|rs| - 1])
  }

  /** The positions of the mails with other ids, in order. */
  ghost predicate Others(ms: seq<Mail>, id: nat, left: seq<nat>) {
    && (forall k :: 0 <= k < |left| ==> IsOther(ms, id, left[k]))
    && (forall k, l :: 0 <= k < l < |left| ==> left[k] < left[l])
    && forall i :: IsOther(ms, id, i) ==> i in left
  }

  predicate IsOther(ms: seq<Mail>, id: nat, i: nat) {
    i < |ms| && ms[i].id != id
  }

  lemma {:induction false} KeepSnoc(ms: seq<Mail>, m: Mail, id: nat)
    ensures Keep(ms + [m], id) == Keep(ms, id) + if m.id != id then [m] else []
  {
    var last: seq<Mail> := if m.id != id then [m] else [];
    if ms == [] {
      assert [] + [m] == [m] && [m][1..] == [];
      assert last + [] == last && [] + last == last;
    } else {
      var first: seq<Mail> := if ms[0].id != id then [ms[0]] else [];
      assert (ms + [m])[1..] == ms[1..] + [m] && (ms + [m])[0] == ms[0];
      KeepSnoc(ms[1..], m, id);
      Joined(first, Keep(ms[1..], id), last);
    }
  }

  lemma Joined(a: seq<Mail>, b: seq<Mail>, c: seq<Mail>)
    ensures a + (b + c) == a + b + c
  {
  }

  lemma OthersSnoc(ms: seq<Mail>, id: nat, left: seq<nat>)
    requires ms != [] && Others(ms[..|ms| - 1], id, left)
    ensures Others(ms, id, left + if IsOther(ms, id, |ms| - 1) then [|ms| - 1] else [])
  {
    assert forall k :: 0 <= k < |left| ==> IsOther(ms[..|ms| - 1], id, left[k]);
  }

  lemma {:induction false} KeptAt(ms: seq<Mail>, id: nat) returns (left: seq<nat>)
    ensures Others(ms, id, left)
    ensures |Keep(ms, id)| == |left| && forall k :: 0 <= k < |left| ==> Keep(ms, id)[k] == ms[left[k]]
  {
    if ms == [] {
      left := [];
    } else {
      var front, last := ms[..|ms| - 1], |ms| - 1;
      left := KeptAt(front, id);
      assert ms == front + [ms[last]];
      KeepSnoc(front, ms[last], id);
      assert forall k :: 0 <= k < |left| ==> IsOther(front, id, left[k]);
      OthersSnoc(ms, id, left);
      hide Others, Keep;
      left := left + if IsOther(ms, id, last) then [last] else [];
    }
  }

  /** After a removal the reader finds exactly the mails with other ids, in order. */
  lemma RemovedText(ms: seq<Mail>, id: nat) returns (left: seq<nat>)
    requires MailsOk(ms)
    ensures Others(ms, id, left)
    ensures var text := ServeText(PrintAll(ms), Remove(id));
            && text.Some? && MailsIn(text.value).Some? && |MailsIn(text.value).value| == |left|
            && forall k :: 0 <= k < |left| ==> Reads(MailsIn(text.value).value[k], ms[left[k]])
  {
    hide Parse, PrintAll, MailOk, Keep, ToLocalString;
    DeleteKeepsOthers(ms, id);
    left := KeptAt(Normals(ms), id);
    NormalsRead(ms);
    assert Others(ms, id, left);
  }

  /** After a delivery the reader finds the mails as before, and behind them the new one,
      with the number behind the largest one: 1 in an empty box. */
  lemma DeliveredText(ms: seq<Mail>, m: Mail)
    requires MailsOk(ms) && MailOk(m) && forall i :: 0 <= i < |ms| ==> ms[i].id < UINT64_MAX
    ensures var text := ServeText(PrintAll(ms), Deliver(m));
            && text.Some? && MailsIn(text.value).Some?
            && var got := MailsIn(text.value).value;
            && |got| == |ms| + 1 && (forall i :: 0 <= i < |ms| ==> Reads(got[i], ms[i]))
            && Reads(got[|ms|], m.(id := got[|ms|].id))
            && (forall i :: 0 <= i < |ms| ==> ms[i].id < got[|ms|].id)
            && (got[|ms|].id == 1 || exists i :: 0 <= i < |ms| && ms[i].id + 1 == got[|ms|].id)
  {
    hide Parse, PrintAll, TextLines, ToLocalString;
    MailboxRoundTrip(ms);
    MaxIdBounds(ms, 0);
    var sent := m.(id := NextId(MaxId(ms, 0)));
    assert sent.id == MaxId(ms, 0) + 1;
    hide MailOk;
    OtherIdOk(m, sent.id);
    DeliverAppends(ms, sent);
    NormalsRead(ms);
  }

  lemma OtherIdOk(m: Mail, id: nat)
    requires MailOk(m) && id <= UINT64_MAX
    ensures MailOk(m.(id := id))
  {
  }

  /** One request, on a fresh box. */
  method ServeRequest(cell: Cell, r: Request) returns (ok: bool)
    modifies cell
    ensures ok <==> ServeText(old(cell.value), r).Some?
    ensures cell.value == if ok then ServeText(old(cell.value), r).value else old(cell.value)
  {
    hide Parse, PrintAll, Keep, ToLocalString;
    var box := new MBox(cell);
    ok := box.Init();
    if ok {
      match r {
        case Deliver(mail) =>
          var written;
          ok, written := box.Write(mail);
        case Remove(id) =>
          ok := box.Del(id);
      }
    }
  }

  lemma {:induction false} MaxIdOfNormals(ms: seq<Mail>, start: nat)
    ensures MaxId(Normals(ms), start) == MaxId(ms, start)
  {
    hide WithDomain;
    if ms != [] {
      MaxIdOfNormals(ms[1..], Max(ms[0].id, start));
      assert Normals(ms)[1..] == Normals(ms[1..]);
    }
  }

  /** The stored text always parses to the list that deliveries and removals describe. */
  lemma {:induction false} TextFollowsList(rs: seq<Request>) returns (ms: seq<Mail>)
    requires forall i :: 0 <= i < |rs| && rs[i].Deliver? ==> MailOk(rs[i].mail.(id := 0))
    ensures MailsOk(ms) && RunText(rs) == Some(PrintAll(ms)) && RunList(rs) == Normals(ms)
    ensures MailsIn(RunText(rs).value) == Some(RunList(rs))
  {
    hide Parse, MailsOk, MailOk, ToLocalString, Normal, PrintAll;
    if rs == [] {
      ms := [];
      NoMails();
    } else {
      var front, r := rs[..|rs| - 1], rs[|rs| - 1];
      var before := TextFollowsList(front);
      MailboxRoundTrip(before);
      MaxIdOfNormals(before, 0);
      match r {
        case Deliver(m) =>
          var sent := m.(id := NextId(MaxId(before, 0)));
          ms := before + [sent];
          IdDoesNotMatter(m, sent.id);
          PrintAllSnoc(before, sent);
          AppendedOk(before, sent);
        case Remove(id) =>
          ms := Keep(Normals(before), id);
          KeptAreOk(before, id);
      }
    }
    MailboxRoundTrip(ms);
  }

  lemma NoMails()
    ensures MailsOk([]) && PrintAll([]) == ""
  {
  }

  lemma IdDoesNotMatter(m: Mail, id: nat)
    requires MailOk(m.(id := 0)) && id <= UINT64_MAX
    ensures MailOk(m.(id := id))
  {
  }

  lemma AppendedOk(ms: seq<Mail>, m: Mail)
    requires MailsOk(ms) && MailOk(m)
    ensures MailsOk(ms + [m])
  {
  }
}
