/** The results file working_ips.txt: one line `IP: <ip>, Ping: <ms> ms` per working
    candidate, and a reader for that format, which gives back exactly the entries
    that were written. */
module ResultsFile {
  import opened Wrappers

  /** One entry of `working_ips`: a candidate that answered, with its ping in whole milliseconds. */
  datatype Entry = Entry(ip: string, ping: nat)

  predicate IsDigit(c: char)
  {
    '0' <= c <= '9'
  }

  predicate AllDigits(s: string)
  {
    forall i :: 0 <= i < |s| ==> IsDigit(s[i])
  }

  function DigitChar(d: nat): (c: char)
    requires d < 10
    ensures IsDigit(c) && (c as int) - ('0' as int) == d
  {
    "0123456789"[d]
  }

  /** Python's `str(n)` for a non-negative integer: at least one decimal digit, and no
      leading zero except in "0" itself, which is what zero is written as. */
  function Decimal(n: nat): (r: string)
    ensures |r| > 0 && AllDigits(r)
    ensures n > 0 ==> r[0] != '0'
    ensures r[0] == '0' ==> r == "0"
    decreases n
  {
    if n < 10 then [DigitChar(n)] else Decimal(n / 10) + [DigitChar(n % 10)]
  }

  /** The number a string of decimal digits denotes. */
  function DecimalValue(s: string): nat
    requires AllDigits(s)
    decreases |s|
  {
    if s == [] then 0
    else DecimalValue(s[..|s| - 1]) * 10 + ((s[|s| - 1] as int) - ('0' as int))
  }

  lemma {:induction false} DecimalRoundTrip(n: nat)
    ensures DecimalValue(Decimal(n)) == n
    decreases n
  {
    if n >= 10 {
      DecimalRoundTrip(n / 10);
      var r := Decimal(n);
      assert r[..|r| - 1] == Decimal(n / 10);
    }
  }

  /** `f"IP: {ip}, Ping: {ping_ms} ms\n"` */
  function ResultLine(e: Entry): string
  {
    "IP: " + e.ip + ", Ping: " + Decimal(e.ping) + " ms\n"
  }

  /** The file's text after the given entries were appended in order. */
  function Render(entries: seq<Entry>): string
    decreases |entries|
  {
    if entries == [] then [] else ResultLine(entries[0]) + Render(entries[1..])
  }

  /** The file after the given entries were appended to a deleted file: absent while
      nothing was appended. */
  function FileAfter(entries: seq<Entry>): Option<string>
  {
    if entries == [] then None else Some(Render(entries))
  }

  /** Appending one line to the file is rendering the list with one more entry. */
  lemma {:induction false} RenderAppend(entries: seq<Entry>, e: Entry)
    ensures Render(entries + [e]) == Render(entries) + ResultLine(e)
    decreases |entries|
  {
    if entries == [] {
      assert Render([e]) == ResultLine(e) + Render([]);
    } else {
      assert (entries + [e])[1..] == entries[1..] + [e];
      RenderAppend(entries[1..], e);
    }
  }

  // ---------------------------------------------------------------------------
  // Reading the file back

  /** Position of the first comma, or the length when there is none. */
  function CommaAt(s: string): (n: nat)
    ensures n <= |s| && (n < |s| ==> s[n] == ',')
    ensures forall i :: 0 <= i < n ==> s[i] != ','
    decreases |s|
  {
    if s == [] || s[0] == ',' then 0 else 1 + CommaAt(s[1..])
  }

  /** Length of the leading run of decimal digits. */
  function DigitRun(s: string): (n: nat)
    ensures n <= |s| && (n < |s| ==> !IsDigit(s[n]))
    ensures AllDigits(s[..n])
    decreases |s|
  {
    if s == [] || !IsDigit(s[0]) then 0
    else
      var m := DigitRun(s[1..]);
      assert s[..1 + m] == [s[0]] + s[1..][..m];
      1 + m
  }

  /** Read the part of a line after the address: the ping and the text after the line. */
  function ParsePing(t: string): (r: Option<(nat, string)>)
    ensures r.Some? ==> |r.value.1| < |t|
  {
    if |t| < 8 || t[..8] != ", Ping: " then None
    else
      var u := t[8..];
      var d := DigitRun(u);
      var w := u[d..];
      if d == 0 || |w| < 4 || w[..4] != " ms\n" then None
      else Some((DecimalValue(u[..d]), w[4..]))
  }

  /** Read one line from the front of `s`: the entry and the text after the line. The
      address runs up to the first comma. */
  function ParseLine(s: string): (r: Option<(Entry, string)>)
    ensures r.Some? ==> |r.value.1| < |s|
  {
    if |s| < 4 || s[..4] != "IP: " then None
    else
      var rest := s[4..];
      var n := CommaAt(rest);
      match ParsePing(rest[n..])
      case None => None
      case Some((ping, tail)) => Some((Entry(rest[..n], ping), tail))
  }

  /** Read the whole file, line by line; `None` if some line is not in the format. */
  function ParseAll(s: string): Option<seq<Entry>>
    decreases |s|
  {
    if s == [] then Some([])
    else match ParseLine(s)
      case None => None
      case Some((e, rest)) =>
        match ParseAll(rest)
        case None => None
        case Some(es) => Some([e] + es)
  }

  /** The first comma of `ip + tail` is the one that starts `tail`, when `ip` has none. */
  lemma CommaAfter(ip: string, tail: string)
    requires ',' !in ip && tail != [] && tail[0] == ','
    ensures CommaAt(ip + tail) == |ip|
  {
    var s := ip + tail;
    assert forall i :: 0 <= i < |ip| ==> s[i] == ip[i];
    assert s[|ip|] == ',';
  }

  /** The digit run of `digits + tail` is `digits`, when `tail` starts with a non-digit. */
  lemma DigitsBefore(digits: string, tail: string)
    requires AllDigits(digits) && tail != [] && !IsDigit(tail[0])
    ensures DigitRun(digits + tail) == |digits|
  {
    var s := digits + tail;
    assert forall i :: 0 <= i < |digits| ==> s[i] == digits[i];
    assert s[|digits|] == tail[0];
  }

  /** The ping part of a written line reads back as the ping. */
  lemma ParsePingBack(ping: nat, rest: string)
    ensures ParsePing(", Ping: " + (Decimal(ping) + (" ms\n" + rest))) == Some((ping, rest))
  {
    var digits := Decimal(ping);
    var t := ", Ping: " + (digits + (" ms\n" + rest));
    assert t[..8] == ", Ping: ";
    var u := t[8..];
    assert u == digits + (" ms\n" + rest);
    DigitsBefore(digits, " ms\n" + rest);
    assert u[..|digits|] == digits;
    assert u[|digits|..] == " ms\n" + rest;
    DecimalRoundTrip(ping);
  }

  /** A written line reads back as the entry it was written from, for an address without commas. */
  lemma ParseResultLine(e: Entry, rest: string)
    requires ',' !in e.ip
    ensures ParseLine(ResultLine(e) + rest) == Some((e, rest))
  {
    var afterIp := ", Ping: " + (Decimal(e.ping) + (" ms\n" + rest));
    var s := ResultLine(e) + rest;
    assert s == "IP: " + (e.ip + afterIp);
    assert s[..4] == "IP: ";
    assert s[4..] == e.ip + afterIp;
    CommaAfter(e.ip, afterIp);
    assert (e.ip + afterIp)[|e.ip|..] == afterIp;
    assert (e.ip + afterIp)[..|e.ip|] == e.ip;
    ParsePingBack(e.ping, rest);
  }

  /** A text made of a line and a rest that both read back reads back as the whole. */
  lemma ParseAllCons(s: string, e: Entry, rest: string, es: seq<Entry>)
    requires ParseLine(s) == Some((e, rest)) && ParseAll(rest) == Some(es)
    ensures ParseAll(s) == Some([e] + es)
  {
  }

  /** Reading the file gives back exactly the entries written, in order, when no address contains a comma. */
  lemma {:induction false} ParseRender(entries: seq<Entry>)
    requires forall i :: 0 <= i < |entries| ==> ',' !in entries[i].ip
    ensures ParseAll(Render(entries)) == Some(entries)
    decreases |entries|
  {
    if entries != [] {
      var tail := Render(entries[1..]);
      ParseRender(entries[1..]);
      ParseResultLine(entries[0], tail);
      ParseAllCons(ResultLine(entries[0]) + tail, entries[0], tail, entries[1..]);
      assert [entries[0]] + entries[1..] == entries;
    }
  }
}
