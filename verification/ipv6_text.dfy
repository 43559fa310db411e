/**
 IPv6 text and the ranges deliveries must not reach: `expandIpv6`, `isBlockedIp` and
 `isBlockedIpv4`, with the printed forms of section 2.2 of RFC 4291.
 */
module Ipv6Text {
  import opened Prelude
  import opened Text

  // ---------------------------------------------------------------- splitting and joining

  /** `s.split(c)` for a single character; never empty. */
  function Split(s: string, c: char): (parts: seq<string>)
    ensures |parts| >= 1
  {
    if s == [] then [""]
    else if s[0] == c then [""] + Split(s[1..], c)
    else
      var rest := Split(s[1..], c);
      [[s[0]] + rest[0]] + rest[1..]
  }

  function Join(parts: seq<string>, c: char): string {
    if parts == [] then ""
    else if |parts| == 1 then parts[0]
    else parts[0] + [c] + Join(parts[1..], c)
  }

  lemma {:induction false} SplitWhole(s: string, c: char)
    requires c !in s
    ensures Split(s, c) == [s]
  {
    if s != [] {
      SplitWhole(s[1..], c);
      assert [s[0]] + s[1..] == s;
    }
  }

  lemma {:induction false} SplitHead(head: string, c: char, tail: string)
    requires c !in head
    ensures Split(head + [c] + tail, c) == [head] + Split(tail, c)
  {
    var s := head + [c] + tail;
    if head == [] {
      assert s[1..] == tail;
    } else {
      SplitHead(head[1..], c, tail);
      assert s[1..] == head[1..] + [c] + tail;
      assert [s[0]] + head[1..] == head;
    }
  }

  lemma {:induction false} SplitJoin(parts: seq<string>, c: char)
    requires parts != [] && forall i :: 0 <= i < |parts| ==> c !in parts[i]
    ensures Split(Join(parts, c), c) == parts
  {
    if |parts| == 1 {
      SplitWhole(parts[0], c);
    } else {
      SplitJoin(parts[1..], c);
      SplitHead(parts[0], c, Join(parts[1..], c));
    }
  }

  /** Where the first '::' starts, or -1. */
  function FindDouble(s: string): (at: int)
    ensures -1 <= at < |s| - 1 || (at == -1 && |s| == 0)
  {
    if |s| < 2 then -1
    else if s[0] == ':' && s[1] == ':' then 0
    else
      var at := FindDouble(s[1..]);
      if at < 0 then -1 else at + 1
  }

  predicate DoubleAt(s: string, k: nat) {
    k + 1 < |s| && s[k] == ':' && s[k + 1] == ':'
  }

  lemma {:induction false} FindDoubleIsFirst(s: string)
    ensures FindDouble(s) >= 0 ==> DoubleAt(s, FindDouble(s))
    ensures forall k: nat :: DoubleAt(s, k) ==> 0 <= FindDouble(s) <= k
  {
    if |s| >= 2 && !DoubleAt(s, 0) {
      FindDoubleIsFirst(s[1..]);
      forall k: nat | DoubleAt(s, k)
        ensures 0 <= FindDouble(s) <= k
      {
        assert DoubleAt(s[1..], k - 1);
      }
      if FindDouble(s) >= 0 {
        assert DoubleAt(s[1..], FindDouble(s) - 1);
      }
    }
  }

  // ---------------------------------------------------------------- groups

  predicate IsHexDigit(c: char) {
    '0' <= c <= '9' || 'a' <= c <= 'f' || 'A' <= c <= 'F'
  }

  function HexDigitValue(c: char): nat
    requires IsHexDigit(c)
    ensures HexDigitValue(c) < 16
  {
    if '0' <= c <= '9' then (c - '0') as nat
    else if 'a' <= c <= 'f' then (c - 'a') as nat + 10
    else (c - 'A') as nat + 10
  }

  predicate AllHex(s: string) {
    forall i :: 0 <= i < |s| ==> IsHexDigit(s[i])
  }

  function HexValue(s: string): nat
    requires AllHex(s)
  {
    if s == [] then 0 else HexValue(s[..|s| - 1]) * 16 + HexDigitValue(s[|s| - 1])
  }

  predicate AllDigits(s: string) {
    forall i :: 0 <= i < |s| ==> IsDigit(s[i])
  }

  /** `Number(octet)` when it is an integer in 0..255; the empty text reads as 0. */
  function OctetOf(s: string): Option<nat> {
    if AllDigits(s) && DecimalValue(s) <= 255 then Some(DecimalValue(s)) else None
  }

  /** One colon-separated piece: an IPv4 tail gives two groups, a hex numeral one. */
  function GroupOf(piece: string): Option<seq<nat>> {
    if '.' in piece then
      var octets := Split(piece, '.');
      if |octets| != 4 then None
      else
        var (a, b, c, d) := (OctetOf(octets[0]), OctetOf(octets[1]), OctetOf(octets[2]), OctetOf(octets[3]));
        if a.None? || b.None? || c.None? || d.None? then None
        else Some([a.value * 256 + b.value, c.value * 256 + d.value])
    else if 1 <= |piece| <= 4 && AllHex(piece) then Some([HexValue(piece)])
    else None
  }

  function GroupsOf(pieces: seq<string>): Option<seq<nat>> {
    if pieces == [] then Some([])
    else
      var init := GroupsOf(pieces[..|pieces| - 1]);
      var last := GroupOf(pieces[|pieces| - 1]);
      if init.None? || last.None? then None else Some(init.value + last.value)
  }

  function SectionGroups(section: string): Option<seq<nat>> {
    if section == "" then Some([]) else GroupsOf(Split(section, ':'))
  }

  /** The program's loop: it pushes groups and gives up at the first bad piece. */
  method ParseGroups(section: string) returns (groups: Option<seq<nat>>)
    ensures groups == SectionGroups(section)
  {
    if section == "" {
      return Some([]);
    }
    var pieces := Split(section, ':');
    var out: seq<nat> := [];
    for i := 0 to |pieces|
      invariant GroupsOf(pieces[..i]) == Some(out)
    {
      assert pieces[..i + 1][..i] == pieces[..i];
      var group := GroupOf(pieces[i]);
      if group.None? {
        BadPieceFails(pieces, i);
        return None;
      }
      out := out + group.value;
    }
    assert pieces[..|pieces|] == pieces;
    groups := Some(out);
  }

  lemma {:induction false} BadPieceFails(pieces: seq<string>, i: nat)
    requires i < |pieces| && GroupOf(pieces[i]).None?
    ensures GroupsOf(pieces).None?
  {
    if i < |pieces| - 1 {
      BadPieceFails(pieces[..|pieces| - 1], i);
    }
  }

  function Zeros(n: nat): seq<nat> {
    seq(n, _ => 0)
  }

  /** `expandIpv6`: eight groups, or nothing when the text is not an address. */
  function Expand(ip: string): Option<seq<nat>> {
    ExpandAddr(Split(ip, '%')[0])
  }

  function ExpandAddr(addr: string): Option<seq<nat>> {
    var at := FindDouble(addr);
    if at < 0 then
      var head := SectionGroups(addr);
      if head.None? || |head.value| != 8 then None else head
    else
      var rest := addr[at + 2..];
      if FindDouble(rest) >= 0 then None
      else
        var head := SectionGroups(addr[..at]);
        var tail := SectionGroups(rest);
        if head.None? || tail.None? || |head.value| + |tail.value| > 8 then None
        else Some(head.value + Zeros(8 - |head.value| - |tail.value|) + tail.value)
  }

  predicate AreGroups(gs: seq<nat>) {
    forall i :: 0 <= i < |gs| ==> gs[i] < 0x10000
  }

  lemma {:induction false} HexValueBound(s: string)
    requires AllHex(s) && |s| <= 4
    ensures HexValue(s) < (if |s| == 0 then 1 else if |s| == 1 then 0x10 else if |s| == 2 then 0x100
                           else if |s| == 3 then 0x1000 else 0x10000)
  {
    if s != [] {
      HexValueBound(s[..|s| - 1]);
    }
  }

  lemma GroupOfBound(piece: string)
    requires GroupOf(piece).Some?
    ensures AreGroups(GroupOf(piece).value)
  {
    if '.' !in piece {
      HexValueBound(piece);
    }
  }

  lemma {:induction false} GroupsOfBound(pieces: seq<string>)
    requires GroupsOf(pieces).Some?
    ensures AreGroups(GroupsOf(pieces).value)
  {
    hide GroupOf;
    if pieces != [] {
      GroupsOfBound(pieces[..|pieces| - 1]);
      GroupOfBound(pieces[|pieces| - 1]);
    }
  }

  /** Whatever the text, an expansion is exactly eight 16-bit values. */
  lemma ExpansionIsEightGroups(ip: string)
    requires Expand(ip).Some?
    ensures |Expand(ip).value| == 8 && AreGroups(Expand(ip).value)
  {
    hide GroupsOf;
    var addr := Split(ip, '%')[0];
    var at := FindDouble(addr);
    if at < 0 {
      GroupsOfBound(Split(addr, ':'));
    } else {
      if addr[..at] != "" {
        GroupsOfBound(Split(addr[..at], ':'));
      }
      if addr[at + 2..] != "" {
        GroupsOfBound(Split(addr[at + 2..], ':'));
      }
    }
  }

  // ---------------------------------------------------------------- printing

  function HexChar(d: nat): char
    requires d < 16
    ensures IsHexDigit(HexChar(d)) && HexDigitValue(HexChar(d)) == d
  {
    if d < 10 then '0' + d as char else 'a' + (d - 10) as char
  }

  function Hex(n: nat): (s: string)
    ensures |s| >= 1 && AllHex(s)
  {
    if n < 16 then [HexChar(n)] else Hex(n / 16) + [HexChar(n % 16)]
  }

  lemma {:induction false} HexRoundTrip(n: nat)
    ensures HexValue(Hex(n)) == n
  {
    if n < 16 {
      assert Hex(n)[..0] == [];
    } else {
      HexRoundTrip(n / 16);
      assert Hex(n)[..|Hex(n)| - 1] == Hex(n / 16);
    }
  }

  lemma {:induction false} HexLength(n: nat, k: nat)
    requires 1 <= k <= 4
    requires n < (if k == 1 then 0x10 else if k == 2 then 0x100 else if k == 3 then 0x1000 else 0x10000)
    ensures |Hex(n)| <= k
  {
    if n >= 16 {
      HexLength(n / 16, k - 1);
    }
  }

  function Dotted(a: nat, b: nat, c: nat, d: nat): string {
    Join([Decimal(a), Decimal(b), Decimal(c), Decimal(d)], '.')
  }

  /** The colon-separated pieces of some groups, the last two as an IPv4 tail if asked. */
  function Pieces(gs: seq<nat>, tail4: bool): seq<string>
    requires tail4 ==> |gs| >= 2
  {
    if tail4 then
      var n := |gs| - 2;
      Pieces(gs[..n], false) + [Dotted(gs[n] / 256, gs[n] % 256, gs[n + 1] / 256, gs[n + 1] % 256)]
    else if gs == [] then []
    else Pieces(gs[..|gs| - 1], false) + [Hex(gs[|gs| - 1])]
  }

  /** A piece between colons: not empty, and without the characters that separate. */
  predicate Clean(piece: string) {
    piece != [] && ':' !in piece && '%' !in piece
  }

  lemma CleanHex(n: nat)
    ensures Clean(Hex(n)) && '.' !in Hex(n)
  {
  }

  lemma DecimalHasNo(n: nat, c: char)
    requires !IsDigit(c)
    ensures c !in Decimal(n)
  {
  }

  lemma {:induction false} JoinHasNo(parts: seq<string>, c: char, other: char)
    requires other != c && forall i :: 0 <= i < |parts| ==> other !in parts[i]
    ensures other !in Join(parts, c)
  {
    if |parts| > 1 {
      JoinHasNo(parts[1..], c, other);
    }
  }

  lemma DottedOctets(a: nat, b: nat, c: nat, d: nat)
    requires a < 256 && b < 256 && c < 256 && d < 256
    ensures Split(Dotted(a, b, c, d), '.') == [Decimal(a), Decimal(b), Decimal(c), Decimal(d)]
    ensures OctetOf(Decimal(a)) == Some(a) && OctetOf(Decimal(b)) == Some(b)
    ensures OctetOf(Decimal(c)) == Some(c) && OctetOf(Decimal(d)) == Some(d)
  {
    DecimalHasNo(a, '.');
    DecimalHasNo(b, '.');
    DecimalHasNo(c, '.');
    DecimalHasNo(d, '.');
    SplitJoin([Decimal(a), Decimal(b), Decimal(c), Decimal(d)], '.');
    DecimalRoundTrip(a);
    DecimalRoundTrip(b);
    DecimalRoundTrip(c);
    DecimalRoundTrip(d);
    hide Split;
    hide Join;
  }

  lemma DottedIsClean(a: nat, b: nat, c: nat, d: nat)
    ensures Clean(Dotted(a, b, c, d)) && '.' in Dotted(a, b, c, d)
  {
    var parts := [Decimal(a), Decimal(b), Decimal(c), Decimal(d)];
    forall n: nat
      ensures ':' !in Decimal(n) && '%' !in Decimal(n)
    {
      DecimalHasNo(n, ':');
      DecimalHasNo(n, '%');
    }
    JoinHasNo(parts, '.', ':');
    JoinHasNo(parts, '.', '%');
    hide Decimal;
    assert Dotted(a, b, c, d) == Decimal(a) + ['.'] + Join(parts[1..], '.');
    assert Dotted(a, b, c, d)[|Decimal(a)|] == '.';
  }

  lemma DottedIsRead(a: nat, b: nat, c: nat, d: nat)
    requires a < 256 && b < 256 && c < 256 && d < 256
    ensures Clean(Dotted(a, b, c, d))
    ensures GroupOf(Dotted(a, b, c, d)) == Some([a * 256 + b, c * 256 + d])
  {
    hide Dotted;
    hide OctetOf;
    hide Split;
    hide Clean;
    DottedIsClean(a, b, c, d);
    DottedOctets(a, b, c, d);
  }

  lemma HexIsRead(n: nat)
    requires n < 0x10000
    ensures GroupOf(Hex(n)) == Some([n])
  {
    CleanHex(n);
    HexLength(n, 4);
    HexRoundTrip(n);
  }

  /** The pieces are clean and read back as the groups. */
  predicate ReadsAs(pieces: seq<string>, gs: seq<nat>) {
    && GroupsOf(pieces) == Some(gs)
    && (forall i :: 0 <= i < |pieces| ==> Clean(pieces[i]))
    && (gs != [] <==> pieces != [])
  }

  lemma OneMorePiece(pieces: seq<string>, gs: seq<nat>, piece: string, more: seq<nat>)
    requires ReadsAs(pieces, gs) && Clean(piece) && GroupOf(piece) == Some(more) && more != []
    ensures ReadsAs(pieces + [piece], gs + more)
  {
    hide GroupOf;
    hide Clean;
    assert (pieces + [piece])[..|pieces|] == pieces;
  }

  lemma {:induction false} HexPiecesAreRead(gs: seq<nat>)
    requires AreGroups(gs)
    ensures ReadsAs(Pieces(gs, false), gs)
  {
    if gs != [] {
      var n := |gs| - 1;
      HexPiecesAreRead(gs[..n]);
      CleanHex(gs[n]);
      HexIsRead(gs[n]);
      hide ReadsAs;
      OneMorePiece(Pieces(gs[..n], false), gs[..n], Hex(gs[n]), [gs[n]]);
      assert gs == gs[..n] + [gs[n]];
    }
  }

  lemma PiecesAreRead(gs: seq<nat>, tail4: bool)
    requires AreGroups(gs) && (tail4 ==> |gs| >= 2)
    ensures ReadsAs(Pieces(gs, tail4), gs)
  {
    hide ReadsAs;
    hide GroupOf;
    hide Dotted;
    hide Clean;
    if tail4 {
      var n := |gs| - 2;
      HexPiecesAreRead(gs[..n]);
      DottedIsRead(gs[n] / 256, gs[n] % 256, gs[n + 1] / 256, gs[n + 1] % 256);
      OneMorePiece(Pieces(gs[..n], false), gs[..n],
                   Dotted(gs[n] / 256, gs[n] % 256, gs[n + 1] / 256, gs[n + 1] % 256), [gs[n], gs[n + 1]]);
      assert gs == gs[..n] + [gs[n], gs[n + 1]];
    } else {
      HexPiecesAreRead(gs);
    }
  }

  function Section(gs: seq<nat>, tail4: bool): string
    requires tail4 ==> |gs| >= 2
  {
    Join(Pieces(gs, tail4), ':')
  }

  /** Clean pieces joined by single colons hold no '::', and no colon at either end. */
  lemma {:induction false} JoinIsSingle(pieces: seq<string>)
    requires forall i :: 0 <= i < |pieces| ==> Clean(pieces[i])
    ensures var s := Join(pieces, ':');
            && (forall k: nat :: !DoubleAt(s, k))
            && (s != "" ==> s[0] != ':' && s[|s| - 1] != ':')
            && (s == "" <==> pieces == [])
  {
    if |pieces| > 1 {
      JoinIsSingle(pieces[1..]);
      var rest := Join(pieces[1..], ':');
      var s := Join(pieces, ':');
      var n := |pieces[0]|;
      assert s == pieces[0] + [':'] + rest;
      forall k: nat
        ensures !DoubleAt(s, k)
      {
        if k + 1 < n {
          assert s[k] == pieces[0][k];
        } else if k + 1 == n {
          assert s[k] == pieces[0][k];
        } else if k == n {
          assert k + 1 < |s| ==> s[k + 1] == rest[0];
        } else {
          assert !DoubleAt(rest, k - n - 1);
        }
      }
    } else if |pieces| == 1 {
      forall k: nat
        ensures !DoubleAt(pieces[0], k)
      {
        assert k < |pieces[0]| ==> pieces[0][k] in pieces[0];
      }
    }
  }

  /** Text between the ends of an address, or on one side of its '::'. */
  ghost predicate SectionText(text: string, gs: seq<nat>) {
    && SectionGroups(text) == Some(gs)
    && (forall k: nat :: !DoubleAt(text, k))
    && (text != "" ==> text[0] != ':' && text[|text| - 1] != ':')
    && '%' !in text
  }

  lemma JoinedIsRead(pieces: seq<string>, gs: seq<nat>)
    requires ReadsAs(pieces, gs)
    ensures SectionText(Join(pieces, ':'), gs)
  {
    hide GroupsOf;
    JoinIsSingle(pieces);
    JoinHasNo(pieces, ':', '%');
    if pieces != [] {
      SplitJoin(pieces, ':');
    } else {
      NoPieces(gs);
    }
  }

  lemma NoPieces(gs: seq<nat>)
    requires ReadsAs([], gs)
    ensures gs == []
  {
  }

  lemma SectionIsRead(gs: seq<nat>, tail4: bool)
    requires AreGroups(gs) && (tail4 ==> |gs| >= 2)
    ensures SectionText(Section(gs, tail4), gs)
  {
    hide ReadsAs;
    hide SectionText;
    PiecesAreRead(gs, tail4);
    JoinedIsRead(Pieces(gs, tail4), gs);
  }

  lemma FirstPart(addr: string, c: char, rest: string)
    requires c !in addr
    ensures Split(addr, c)[0] == addr && Split(addr + [c] + rest, c)[0] == addr
  {
    SplitWhole(addr, c);
    SplitHead(addr, c, rest);
  }

  /** Text with or without a zone: `addr`, or `addr%zone`. */
  function Zoned(addr: string, zone: Option<string>): string {
    if zone.Some? then addr + ['%'] + zone.value else addr
  }

  lemma ZoneIsIgnored(addr: string, zone: Option<string>)
    requires '%' !in addr
    ensures Split(Zoned(addr, zone), '%')[0] == addr
  {
    FirstPart(addr, '%', if zone.Some? then zone.value else "");
  }

  lemma WholeExpands(text: string, gs: seq<nat>, zone: Option<string>)
    requires SectionText(text, gs) && |gs| == 8
    ensures Expand(Zoned(text, zone)) == Some(gs)
  {
    hide SectionGroups;
    FindDoubleIsFirst(text);
    ZoneIsIgnored(text, zone);
  }

  /** Eight groups printed in full, with or without an IPv4 tail, expand to themselves. */
  lemma FullTextExpands(gs: seq<nat>, tail4: bool, zone: Option<string>)
    requires |gs| == 8 && AreGroups(gs)
    ensures Expand(Zoned(Section(gs, tail4), zone)) == Some(gs)
  {
    hide SectionText;
    hide Section;
    hide Expand;
    SectionIsRead(gs, tail4);
    WholeExpands(Section(gs, tail4), gs, zone);
  }

  /** `gs` with the run from `i` to `j` written as '::'. */
  function Compressed(gs: seq<nat>, i: nat, j: nat, tail4: bool): string
    requires i <= j <= |gs| && (tail4 ==> |gs| - j >= 2)
  {
    Section(gs[..i], false) + "::" + Section(gs[j..], tail4)
  }

  lemma NoDoubleInHead(head: string, tail: string, k: nat)
    requires k < |head| && !DoubleAt(head, k)
    requires head[|head| - 1] != ':'
    ensures !DoubleAt(head + "::" + tail, k)
  {
    var s := head + "::" + tail;
    assert s[k] == head[k];
    assert k + 1 < |head| ==> s[k + 1] == head[k + 1];
  }

  lemma DoubleIsAtEndOfHead(head: string, tail: string)
    requires forall k: nat :: !DoubleAt(head, k)
    requires head != "" ==> head[|head| - 1] != ':'
    ensures FindDouble(head + "::" + tail) == |head|
  {
    var s := head + "::" + tail;
    FindDoubleIsFirst(s);
    assert DoubleAt(s, |head|);
    forall k: nat | k < |head|
      ensures !DoubleAt(s, k)
    {
      NoDoubleInHead(head, tail, k);
    }
  }

  lemma HalvesExpand(head: string, tail: string, hs: seq<nat>, ts: seq<nat>, zone: Option<string>)
    requires SectionText(head, hs) && SectionText(tail, ts) && |hs| + |ts| <= 8
    ensures Expand(Zoned(head + "::" + tail, zone)) == Some(hs + Zeros(8 - |hs| - |ts|) + ts)
  {
    hide SectionGroups;
    var addr := head + "::" + tail;
    DoubleIsAtEndOfHead(head, tail);
    FindDoubleIsFirst(tail);
    ZoneIsIgnored(addr, zone);
    assert addr[..|head|] == head && addr[|head| + 2..] == tail;
  }

  /** Any one run of zero groups, of any length, may be written as '::'. */
  lemma CompressedTextExpands(gs: seq<nat>, i: nat, j: nat, tail4: bool, zone: Option<string>)
    requires |gs| == 8 && AreGroups(gs) && i <= j <= 8 && (tail4 ==> 8 - j >= 2)
    requires forall k :: i <= k < j ==> gs[k] == 0
    ensures Expand(Zoned(Compressed(gs, i, j, tail4), zone)) == Some(gs)
  {
    hide SectionText;
    hide Section;
    hide Expand;
    SectionIsRead(gs[..i], false);
    SectionIsRead(gs[j..], tail4);
    HalvesExpand(Section(gs[..i], false), Section(gs[j..], tail4), gs[..i], gs[j..], zone);
    assert gs == gs[..i] + Zeros(j - i) + gs[j..];
  }

  /** Any pieces that read as the groups expand to them, around one '::' or none. */
  lemma ReadPiecesExpand(head: seq<string>, tail: seq<string>, hs: seq<nat>, ts: seq<nat>, zone: Option<string>)
    requires ReadsAs(head, hs) && ReadsAs(tail, ts)
    ensures |hs| == 8 ==> Expand(Zoned(Join(head, ':'), zone)) == Some(hs)
    ensures |hs| + |ts| <= 8 ==>
              Expand(Zoned(Join(head, ':') + "::" + Join(tail, ':'), zone)) == Some(hs + Zeros(8 - |hs| - |ts|) + ts)
  {
    hide ReadsAs;
    hide SectionText;
    hide Expand;
    JoinedIsRead(head, hs);
    JoinedIsRead(tail, ts);
    if |hs| == 8 {
      WholeExpands(Join(head, ':'), hs, zone);
    }
    if |hs| + |ts| <= 8 {
      HalvesExpand(Join(head, ':'), Join(tail, ':'), hs, ts, zone);
    }
  }

  /** One to four hexadecimal digits, in either case, with leading zeros or without. */
  predicate Spelled(piece: string) {
    1 <= |piece| <= 4 && AllHex(piece)
  }

  /** The numbers some pieces spell. */
  function Values(pieces: seq<string>): seq<nat>
    requires forall p :: p in pieces ==> Spelled(p)
  {
    if pieces == [] then []
    else
      var last := pieces[|pieces| - 1];
      assert last in pieces && Spelled(last);
      Values(pieces[..|pieces| - 1]) + [HexValue(last)]
  }

  lemma {:induction false} SpelledPiecesAreRead(pieces: seq<string>)
    requires forall p :: p in pieces ==> Spelled(p)
    ensures ReadsAs(pieces, Values(pieces)) && |Values(pieces)| == |pieces|
  {
    if pieces != [] {
      var init, last := pieces[..|pieces| - 1], pieces[|pieces| - 1];
      assert last in pieces && pieces == init + [last];
      SpelledPiecesAreRead(init);
      hide ReadsAs;
      HexPieceIsRead(init, Values(init), last);
    }
  }

  /**
   Nor need the groups be written as `Section` writes them: eight pieces in hexadecimal, in
   either case and with leading zeros, expand to the numbers they spell, and fewer around a
   '::' to those numbers around zeros.
   */
  lemma AnySpellingExpands(head: seq<string>, tail: seq<string>, zone: Option<string>)
    requires forall p :: p in head || p in tail ==> Spelled(p)
    ensures |head| == 8 ==> Expand(Zoned(Join(head, ':'), zone)) == Some(Values(head))
    ensures |head| + |tail| <= 8 ==>
              Expand(Zoned(Join(head, ':') + "::" + Join(tail, ':'), zone))
              == Some(Values(head) + Zeros(8 - |head| - |tail|) + Values(tail))
  {
    hide ReadsAs;
    hide Expand;
    SpelledPiecesAreRead(head);
    SpelledPiecesAreRead(tail);
    ReadPiecesExpand(head, tail, Values(head), Values(tail), zone);
  }

  lemma DottedEndIsRead(pieces: seq<string>, a: nat, b: nat, c: nat, d: nat)
    requires forall p :: p in pieces ==> Spelled(p)
    requires a < 256 && b < 256 && c < 256 && d < 256
    ensures ReadsAs(pieces + [Dotted(a, b, c, d)], Values(pieces) + [a * 256 + b, c * 256 + d])
  {
    hide ReadsAs;
    hide Dotted;
    hide GroupOf;
    hide Clean;
    hide Values;
    SpelledPiecesAreRead(pieces);
    DottedIsRead(a, b, c, d);
    OneMorePiece(pieces, Values(pieces), Dotted(a, b, c, d), [a * 256 + b, c * 256 + d]);
  }

  /** The last piece may be an IPv4 address, for the last two groups. */
  lemma AnySpellingWithIpv4Expands(head: seq<string>, tail: seq<string>, a: nat, b: nat, c: nat, d: nat,
                                   zone: Option<string>)
    requires forall p :: p in head || p in tail ==> Spelled(p)
    requires a < 256 && b < 256 && c < 256 && d < 256
    ensures var dotted, low := [Dotted(a, b, c, d)], [a * 256 + b, c * 256 + d];
            && (|head| == 6 ==> Expand(Zoned(Join(head + dotted, ':'), zone)) == Some(Values(head) + low))
            && (|head| + |tail| <= 6 ==>
                  Expand(Zoned(Join(head, ':') + "::" + Join(tail + dotted, ':'), zone))
                  == Some(Values(head) + Zeros(6 - |head| - |tail|) + (Values(tail) + low)))
  {
    hide ReadsAs;
    hide Expand;
    hide Dotted;
    hide Values;
    hide Join;
    hide Zoned;
    hide Spelled;
    var dotted, low := Dotted(a, b, c, d), [a * 256 + b, c * 256 + d];
    SpelledPiecesAreRead(head);
    SpelledPiecesAreRead(tail);
    DottedEndIsRead(head, a, b, c, d);
    DottedEndIsRead(tail, a, b, c, d);
    ReadPiecesExpand(head + [dotted], tail, Values(head) + low, Values(tail), zone);
    ReadPiecesExpand(head, tail + [dotted], Values(head), Values(tail) + low, zone);
  }

  /** The number of an upper-case letter or digit is that of its lower case. */
  function LowerHex(c: char): char {
    if 'A' <= c <= 'F' then 'a' + (c - 'A') else c
  }

  function Lower(s: string): (t: string)
    ensures |t| == |s| && forall i :: 0 <= i < |s| ==> t[i] == LowerHex(s[i])
  {
    seq(|s|, i requires 0 <= i < |s| => LowerHex(s[i]))
  }

  /** Leading zeros do not change the number a piece spells. */
  lemma {:induction false} ZeroKeepsValue(piece: string)
    requires AllHex(piece)
    ensures AllHex(['0'] + piece) && HexValue(['0'] + piece) == HexValue(piece)
  {
    var zero := ['0'] + piece;
    if piece == [] {
      assert zero[..0] == [];
    } else {
      ZeroKeepsValue(piece[..|piece| - 1]);
      assert zero[..|zero| - 1] == ['0'] + piece[..|piece| - 1];
    }
  }

  /** Nor does the case of its letters. */
  lemma {:induction false} CaseKeepsValue(piece: string)
    requires AllHex(piece)
    ensures AllHex(Lower(piece)) && HexValue(Lower(piece)) == HexValue(piece)
  {
    if piece != [] {
      var n := |piece| - 1;
      CaseKeepsValue(piece[..n]);
      assert Lower(piece)[..n] == Lower(piece[..n]);
    }
  }

  /** A hexadecimal piece of one to four digits, in either case, reads as its value. */
  lemma HexPieceIsRead(pieces: seq<string>, gs: seq<nat>, piece: string)
    requires ReadsAs(pieces, gs) && Spelled(piece)
    ensures ReadsAs(pieces + [piece], gs + [HexValue(piece)])
  {
    hide ReadsAs;
    OneMorePiece(pieces, gs, piece, [HexValue(piece)]);
  }

  // ---------------------------------------------------------------- what is an address

  /** Four decimal numbers up to 255 between dots; an empty one stands for 0. */
  predicate IsDotted(piece: string) {
    var octets := Split(piece, '.');
    |octets| == 4 && forall i :: 0 <= i < 4 ==> AllDigits(octets[i]) && DecimalValue(octets[i]) <= 255
  }

  predicate IsPiece(piece: string) {
    Spelled(piece) || IsDotted(piece)
  }

  /** The groups some pieces stand for: two for a dotted one. */
  function Words(pieces: seq<string>): nat {
    if pieces == [] then 0
    else Words(pieces[..|pieces| - 1]) + if Spelled(pieces[|pieces| - 1]) then 1 else 2
  }

  /** Pieces between colons that make eight groups, or at most eight around one '::'. */
  ghost predicate AddressText(addr: string) {
    exists head: seq<string>, tail: seq<string> ::
      && (forall p :: p in head || p in tail ==> IsPiece(p))
      && ((addr == Join(head, ':') && Join(tail, ':') == "" && Words(head) == 8)
          || (addr == Join(head, ':') + "::" + Join(tail, ':') && Words(head) + Words(tail) <= 8))
  }

  lemma {:induction false} JoinSplit(s: string, c: char)
    ensures Join(Split(s, c), c) == s
    ensures forall p :: p in Split(s, c) ==> c !in p
  {
    if s != [] {
      var rest := Split(s[1..], c);
      JoinSplit(s[1..], c);
      assert s == [s[0]] + s[1..];
      assert rest == [rest[0]] + rest[1..];
      if s[0] == c {
        assert ([""] + rest)[1..] == rest;
      } else {
        var first := [s[0]] + rest[0];
        assert ([first] + rest[1..])[1..] == rest[1..];
        assert c !in rest[0];
      }
    }
  }

  /** A piece is read exactly when it is one, for one group or two. */
  lemma PieceIsReadIff(piece: string)
    ensures GroupOf(piece).Some? <==> IsPiece(piece)
    ensures GroupOf(piece).Some? ==> |GroupOf(piece).value| == if Spelled(piece) then 1 else 2
  {
    if Spelled(piece) {
      SpelledHasNoDot(piece);
    }
    if '.' !in piece {
      SplitWhole(piece, '.');
    }
  }

  lemma SpelledHasNoDot(piece: string)
    requires Spelled(piece)
    ensures '.' !in piece
  {
  }

  lemma {:induction false} PiecesAreReadIff(pieces: seq<string>)
    ensures GroupsOf(pieces).Some? <==> forall p :: p in pieces ==> IsPiece(p)
    ensures GroupsOf(pieces).Some? ==> |GroupsOf(pieces).value| == Words(pieces)
  {
    hide GroupOf;
    hide IsPiece;
    hide Spelled;
    if pieces != [] {
      var init, last := pieces[..|pieces| - 1], pieces[|pieces| - 1];
      assert pieces == init + [last];
      PiecesAreReadIff(init);
      PieceIsReadIff(last);
    }
  }

  lemma DigitsAreClean(s: string)
    requires AllDigits(s)
    ensures ':' !in s && '%' !in s
  {
  }

  lemma PieceIsClean(piece: string)
    requires IsPiece(piece)
    ensures Clean(piece)
  {
    if !Spelled(piece) {
      var octets := Split(piece, '.');
      JoinSplit(piece, '.');
      forall i | 0 <= i < 4
        ensures ':' !in octets[i] && '%' !in octets[i]
      {
        DigitsAreClean(octets[i]);
      }
      JoinHasNo(octets, '.', ':');
      JoinHasNo(octets, '.', '%');
      assert piece != [];
    }
  }

  lemma PiecesReadAs(pieces: seq<string>) returns (gs: seq<nat>)
    requires forall p :: p in pieces ==> IsPiece(p)
    ensures ReadsAs(pieces, gs) && |gs| == Words(pieces)
  {
    hide IsPiece;
    hide GroupOf;
    hide Clean;
    PiecesAreReadIff(pieces);
    gs := GroupsOf(pieces).value;
    forall i | 0 <= i < |pieces|
      ensures Clean(pieces[i])
    {
      PieceIsClean(pieces[i]);
    }
    WordsOfSome(pieces);
  }

  lemma WordsOfSome(pieces: seq<string>)
    ensures Words(pieces) == 0 <==> pieces == []
  {
  }

  /** A section that is read is the join of its pieces. */
  lemma SectionIsPieces(section: string) returns (pieces: seq<string>)
    requires SectionGroups(section).Some?
    ensures section == Join(pieces, ':') && forall p :: p in pieces ==> IsPiece(p)
    ensures |SectionGroups(section).value| == Words(pieces)
  {
    hide IsPiece;
    hide GroupsOf;
    if section == "" {
      pieces := [];
    } else {
      pieces := Split(section, ':');
      JoinSplit(section, ':');
      PiecesAreReadIff(pieces);
    }
  }

  lemma ExpandReadsAddr(ip: string)
    ensures Expand(ip) == Expand(Split(ip, '%')[0])
  {
    hide ExpandAddr;
    var addr := Split(ip, '%')[0];
    JoinSplit(ip, '%');
    assert addr in Split(ip, '%');
    SplitWhole(addr, '%');
    hide Split;
  }

  lemma OnlyAddressesExpand(addr: string)
    requires '%' !in addr && Expand(addr).Some?
    ensures AddressText(addr)
  {
    hide SectionGroups;
    hide IsPiece;
    hide Words;
    hide Join;
    SplitWhole(addr, '%');
    var at := FindDouble(addr);
    if at < 0 {
      var head := SectionIsPieces(addr);
      NoPiecesJoin();
      var tail: seq<string> := [];
      assert Join(tail, ':') == "" && addr == Join(head, ':');
    } else {
      FindDoubleIsFirst(addr);
      var head := SectionIsPieces(addr[..at]);
      var tail := SectionIsPieces(addr[at + 2..]);
      assert addr == addr[..at] + "::" + addr[at + 2..];
    }
  }

  lemma NoPiecesJoin()
    ensures Join([], ':') == ""
  {
  }

  lemma AddressesExpand(addr: string)
    requires AddressText(addr)
    ensures Expand(addr).Some?
  {
    hide IsPiece;
    hide Words;
    hide Join;
    hide Expand;
    hide ReadsAs;
    hide SectionText;
    var head, tail :|
      && (forall p :: p in head || p in tail ==> IsPiece(p))
      && ((addr == Join(head, ':') && Join(tail, ':') == "" && Words(head) == 8)
          || (addr == Join(head, ':') + "::" + Join(tail, ':') && Words(head) + Words(tail) <= 8));
    var hs := PiecesReadAs(head);
    var ts := PiecesReadAs(tail);
    JoinedIsRead(head, hs);
    JoinedIsRead(tail, ts);
    if addr == Join(head, ':') && Words(head) == 8 {
      WholeExpands(addr, hs, None);
    } else {
      HalvesExpand(Join(head, ':'), Join(tail, ':'), hs, ts, None);
    }
  }

  /** A text expands exactly when what stands before its zone is an address; nothing else does. */
  lemma ExpandsIffAddress(ip: string)
    ensures Expand(ip).Some? <==> AddressText(Split(ip, '%')[0])
  {
    var addr := Split(ip, '%')[0];
    JoinSplit(ip, '%');
    assert addr in Split(ip, '%');
    ExpandReadsAddr(ip);
    hide Expand;
    hide AddressText;
    if Expand(addr).Some? {
      OnlyAddressesExpand(addr);
    }
    if AddressText(addr) {
      AddressesExpand(addr);
    }
  }

  // ---------------------------------------------------------------- blocked ranges

  function IsBlockedIpv4(a: nat, b: nat, c: nat): bool {
    || a == 0
    || a == 10
    || (a == 100 && 64 <= b <= 127)
    || a == 127
    || (a == 169 && b == 254)
    || (a == 172 && 16 <= b <= 31)
    || (a == 192 && b == 0 && c == 0)
    || (a == 192 && b == 168)
    || (a == 198 && (b == 18 || b == 19))
    || a >= 224
  }

  /** An IPv4 network: its first address and the number of addresses. */
  datatype Network = Network(base: nat, size: nat)

  predicate Within(n: nat, net: Network) {
    net.base <= n < net.base + net.size
  }

  function Address(a: nat, b: nat, c: nat, d: nat): nat {
    ((a * 256 + b) * 256 + c) * 256 + d
  }

  /** The networks the policy names, as address ranges. */
  const BLOCKED_NETWORKS: seq<Network> := [
    Network(Address(0, 0, 0, 0), 0x100_0000),
    Network(Address(10, 0, 0, 0), 0x100_0000),
    Network(Address(100, 64, 0, 0), 0x40_0000),
    Network(Address(127, 0, 0, 0), 0x100_0000),
    Network(Address(169, 254, 0, 0), 0x1_0000),
    Network(Address(172, 16, 0, 0), 0x10_0000),
    Network(Address(192, 0, 0, 0), 0x100),
    Network(Address(192, 168, 0, 0), 0x1_0000),
    Network(Address(198, 18, 0, 0), 0x2_0000),
    Network(Address(224, 0, 0, 0), 0x2000_0000)
  ]

  predicate InBlockedNetwork(n: nat) {
    exists i :: 0 <= i < |BLOCKED_NETWORKS| && Within(n, BLOCKED_NETWORKS[i])
  }

  /** The octet tests are the networks 0/8, 10/8, 100.64/10, 127/8, 169.254/16, 172.16/12,
      192.0.0/24, 192.168/16, 198.18/15 and 224/3, no more and no less. */
  lemma OctetTestsAreNetworks(a: nat, b: nat, c: nat, d: nat)
    requires a < 256 && b < 256 && c < 256 && d < 256
    ensures IsBlockedIpv4(a, b, c) <==> InBlockedNetwork(Address(a, b, c, d))
  {
    var n := Address(a, b, c, d);
    if IsBlockedIpv4(a, b, c) {
      var i := if a == 0 then 0 else if a == 10 then 1 else if a == 100 then 2 else if a == 127 then 3
               else if a == 169 then 4 else if a == 172 then 5 else if a == 192 && b == 0 then 6
               else if a == 192 then 7 else if a == 198 then 8 else 9;
      assert Within(n, BLOCKED_NETWORKS[i]);
    }
  }

  predicate Mapped(gs: seq<nat>)
    requires |gs| == 8
  {
    gs[0] == 0 && gs[1] == 0 && gs[2] == 0 && gs[3] == 0 && gs[4] == 0 && gs[5] == 0xffff
  }

  /** `isBlockedIp` for an address that `isIP` classed as `family`; anything else is blocked. */
  function IsBlockedIp(ip: string, family: nat): bool {
    if family == 4 then
      var octets := Split(ip, '.');
      if |octets| != 4 then true
      else
        var (a, b, c) := (OctetOf(octets[0]), OctetOf(octets[1]), OctetOf(octets[2]));
        a.None? || b.None? || c.None? || IsBlockedIpv4(a.value, b.value, c.value)
    else if family == 6 then
      var groups := Expand(ip);
      if groups.None? then true
      else
        ExpansionIsEightGroups(ip);
        IsBlockedGroups(groups.value)
    else true
  }

  /** The masks 0xfe00 and 0xffc0 keep the top 7 and 10 bits, hence the divisions. */
  function IsBlockedGroups(gs: seq<nat>): bool
    requires |gs| == 8
  {
    if Mapped(gs) then IsBlockedIpv4(gs[6] / 256, gs[6] % 256, gs[7] / 256)
    else if forall i :: 0 <= i < 8 ==> gs[i] == 0 then true
    else if (forall i :: 0 <= i < 7 ==> gs[i] == 0) && gs[7] == 1 then true
    else if gs[0] / 0x200 == 0xfc00 / 0x200 then true
    else gs[0] / 0x40 == 0xfe80 / 0x40
  }

  /** What is no address is blocked, and so is what reads as one of neither family. */
  lemma UnreadableIsBlocked(ip: string, family: nat)
    ensures family != 4 && family != 6 ==> IsBlockedIp(ip, family)
    ensures family == 6 && !AddressText(Split(ip, '%')[0]) ==> IsBlockedIp(ip, family)
  {
    ExpandsIffAddress(ip);
    hide Expand;
    hide AddressText;
    hide IsBlockedGroups;
  }

  function MappedGroups(a: nat, b: nat, c: nat, d: nat): seq<nat> {
    [0, 0, 0, 0, 0, 0xffff, a * 256 + b, c * 256 + d]
  }

  /** Any text that expands to the mapped groups of an IPv4 address is blocked exactly when that address is. */
  lemma MappedTextIsItsIpv4(ip: string, a: nat, b: nat, c: nat, d: nat)
    requires a < 256 && b < 256 && c < 256 && d < 256
    requires Expand(ip) == Some(MappedGroups(a, b, c, d))
    ensures IsBlockedIp(ip, 6) == InBlockedNetwork(Address(a, b, c, d))
    ensures IsBlockedIp(ip, 6) == IsBlockedIp(Dotted(a, b, c, d), 4)
  {
    hide Expand;
    hide InBlockedNetwork;
    hide IsBlockedIpv4;
    hide IsBlockedGroups;
    hide OctetOf;
    OctetTestsAreNetworks(a, b, c, d);
    MappedGroupsAreIpv4(a, b, c, d);
    DottedOctets(a, b, c, d);
  }

  /** The printed forms, in full or with any one run of zero groups compressed, are such texts. */
  lemma MappedPrintsAreTheirIpv4(a: nat, b: nat, c: nat, d: nat, i: nat, j: nat, tail4: bool, zone: Option<string>)
    requires a < 256 && b < 256 && c < 256 && d < 256
    requires i <= j <= 8 && (tail4 ==> j <= 6)
    requires forall k :: i <= k < j ==> MappedGroups(a, b, c, d)[k] == 0
    ensures IsBlockedIp(Zoned(Section(MappedGroups(a, b, c, d), tail4), zone), 6)
         == InBlockedNetwork(Address(a, b, c, d))
    ensures IsBlockedIp(Zoned(Compressed(MappedGroups(a, b, c, d), i, j, tail4), zone), 6)
         == InBlockedNetwork(Address(a, b, c, d))
  {
    hide Expand;
    hide Section;
    hide Compressed;
    hide InBlockedNetwork;
    hide IsBlockedIp;
    var gs := MappedGroups(a, b, c, d);
    FullTextExpands(gs, tail4, zone);
    CompressedTextExpands(gs, i, j, tail4, zone);
    MappedTextIsItsIpv4(Zoned(Section(gs, tail4), zone), a, b, c, d);
    MappedTextIsItsIpv4(Zoned(Compressed(gs, i, j, tail4), zone), a, b, c, d);
  }

  lemma MappedGroupsAreIpv4(a: nat, b: nat, c: nat, d: nat)
    requires a < 256 && b < 256 && c < 256 && d < 256
    ensures IsBlockedGroups(MappedGroups(a, b, c, d)) == IsBlockedIpv4(a, b, c)
  {
    hide IsBlockedIpv4;
    assert (a * 256 + b) / 256 == a && (a * 256 + b) % 256 == b && (c * 256 + d) / 256 == c;
  }

  /** Outside the mapped form: unspecified, loopback, fc00::/7 and fe80::/10, and nothing else. */
  lemma BlockedGroupsAreRanges(gs: seq<nat>)
    requires |gs| == 8 && AreGroups(gs) && !Mapped(gs)
    ensures IsBlockedGroups(gs) <==>
            || gs == Zeros(8) || gs == Zeros(7) + [1]
            || 0xfc00 <= gs[0] <= 0xfdff || 0xfe80 <= gs[0] <= 0xfebf
  {
  }
}
