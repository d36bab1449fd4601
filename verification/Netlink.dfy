/** Netlink attributes (src/tcbpf_util.c): the builder `addattr_l` and the walk with RTA_OK and
    RTA_NEXT. An attribute is a 16-bit length, a 16-bit type and a payload, padded to four bytes
    (section 2.2 of RFC 3549, "Message Format"; numbers are in host order, here little endian). */
module Netlink {
  import opened Options

  type Byte = b: int | 0 <= b < 256

  datatype Attr = Attr(kind: nat, payload: seq<Byte>)

  /** RTA_ALIGN and NLMSG_ALIGN */
  function Align(n: nat): (r: nat)
    ensures n <= r < n + 4 && r % 4 == 0 && (n % 4 == 0 ==> r == n)
  {
    (n + 3) / 4 * 4
  }

  /** The space an attribute takes. */
  function Size(a: Attr): nat {
    Align(4 + |a.payload|)
  }

  function Low(x: nat): Byte { x % 256 }
  function High(x: nat): Byte { x / 256 % 256 }

  /** A value as a 16-bit field keeps it. */
  function Trunc16(x: nat): (r: nat)
    ensures r < 65536 && (x < 65536 ==> r == x)
  {
    x % 65536
  }

  function Read16(b: seq<Byte>, i: nat): (r: nat)
    requires i + 2 <= |b|
    ensures r < 65536
  {
    (b[i] as int) + 256 * (b[i + 1] as int)
  }

  lemma Stored16(b: seq<Byte>, i: nat, x: nat)
    requires i + 2 <= |b| && b[i] == Low(x) && b[i + 1] == High(x)
    ensures Read16(b, i) == Trunc16(x)
  {
  }

  /** At `i` the buffer holds attribute `a` as addattr_l writes it. */
  ghost predicate Holds(b: seq<Byte>, i: nat, a: Attr) {
    && i + Size(a) <= |b|
    && Read16(b, i) == Trunc16(4 + |a.payload|) && Read16(b, i + 2) == Trunc16(a.kind)
    && b[i + 4..i + 4 + |a.payload|] == a.payload
  }

  function EndOf(i: nat, attrs: seq<Attr>): nat
    decreases |attrs|
  {
    if attrs == [] then i else EndOf(i + Size(attrs[0]), attrs[1..])
  }

  /** From `i` on the buffer holds `attrs`, one after the other. */
  ghost predicate HoldsAll(b: seq<Byte>, i: nat, attrs: seq<Attr>)
    decreases |attrs|
  {
    attrs == [] || (Holds(b, i, attrs[0]) && HoldsAll(b, i + Size(attrs[0]), attrs[1..]))
  }

  // ----- the walk

  /** The attributes that RTA_OK and RTA_NEXT visit in `n` bytes from `i` on. */
  function Walk(b: seq<Byte>, i: nat, n: int): seq<Attr>
    requires n <= 0 || i + n <= |b|
    decreases if n < 0 then 0 else n
  {
    if n < 4 then []
    else
      var len := Read16(b, i);
      if len < 4 || len > n then []
      else [Attr(Read16(b, i + 2), b[i + 4..i + len])] + Walk(b, i + Align(len), n - Align(len))
  }

  /** The payload fits the 16-bit length field. */
  predicate Fits(a: Attr) {
    |a.payload| <= 65531 && a.kind < 65536
  }

  lemma {:induction false} EndGrows(i: nat, attrs: seq<Attr>)
    ensures EndOf(i, attrs) >= i
    decreases |attrs|
  {
    if attrs != [] {
      EndGrows(i + Size(attrs[0]), attrs[1..]);
    }
  }

  lemma WalkOne(b: seq<Byte>, i: nat, a: Attr, j: nat, end: nat)
    requires Holds(b, i, a) && Fits(a) && i + Size(a) == j <= end <= |b|
    ensures Walk(b, i, end - i) == [a] + Walk(b, j, end - j)
  {
    var len := Read16(b, i);
    assert len == 4 + |a.payload| && Read16(b, i + 2) == a.kind;
    assert b[i + 4..i + len] == a.payload;
  }

  /** Where a walk stops: too few bytes for a header, or a length that is no length or goes beyond
      the end. */
  lemma WalkStopsIff(b: seq<Byte>, i: nat, n: nat)
    requires i + n <= |b|
    ensures Walk(b, i, n) == [] <==> n < 4 || Read16(b, i) < 4 || Read16(b, i) > n
  {
  }

  lemma Regroup(attrs: seq<Attr>, more: seq<Attr>)
    requires attrs != []
    ensures [attrs[0]] + (attrs[1..] + more) == attrs + more
  {
  }

  /** Whatever comes after them, the walk first visits the attributes that are there. */
  lemma {:induction false} WalkVisitsFirst(b: seq<Byte>, i: nat, attrs: seq<Attr>, j: nat, end: nat)
    requires HoldsAll(b, i, attrs) && EndOf(i, attrs) == j <= end <= |b|
    requires forall a :: a in attrs ==> Fits(a)
    ensures i <= j && Walk(b, i, end - i) == attrs + Walk(b, j, end - j)
    decreases |attrs|
  {
    if attrs != [] {
      var a, rest, k := attrs[0], attrs[1..], i + Size(attrs[0]);
      WalkVisitsFirst(b, k, rest, j, end);
      WalkOne(b, i, a, k, end);
      Regroup(attrs, Walk(b, j, end - j));
    }
  }

  /** The walk visits exactly the attributes that were appended, in order, and stops. */
  lemma WalkVisitsAll(b: seq<Byte>, i: nat, attrs: seq<Attr>, end: nat)
    requires HoldsAll(b, i, attrs) && EndOf(i, attrs) == end <= |b|
    requires forall a :: a in attrs ==> Fits(a)
    ensures end >= i && Walk(b, i, end - i) == attrs
  {
    WalkVisitsFirst(b, i, attrs, end, end);
  }

  /** A walk from `i` to `end` visits exactly `attrs`. */
  predicate Visits(b: seq<Byte>, i: nat, end: nat, attrs: seq<Attr>) {
    i <= end <= |b| && (var same := Walk(b, i, end - i) == attrs; same)
  }

  lemma {:induction false} WalkYieldsFitting(b: seq<Byte>, i: nat, n: int, a: Attr)
    requires n <= 0 || i + n <= |b|
    requires a in Walk(b, i, n)
    ensures Fits(a)
    decreases if n < 0 then 0 else n
  {
    var len := Read16(b, i);
    var first := Attr(Read16(b, i + 2), b[i + 4..i + len]);
    if a != first {
      WalkYieldsFitting(b, i + Align(len), n - Align(len), a);
    }
  }

  /** The round trip holds exactly when every payload fits the 16-bit length field. */
  lemma RoundTripIff(b: seq<Byte>, i: nat, attrs: seq<Attr>, end: nat)
    requires HoldsAll(b, i, attrs) && i <= EndOf(i, attrs) == end <= |b|
    ensures Walk(b, i, end - i) == attrs <==> forall a :: a in attrs ==> Fits(a)
  {
    if forall a :: a in attrs ==> Fits(a) {
      WalkVisitsAll(b, i, attrs, end);
    }
    forall a | a in Walk(b, i, end - i) ensures Fits(a) {
      WalkYieldsFitting(b, i, end - i, a);
    }
  }

  // ----- the builder

  lemma {:induction false} EndConcat(i: nat, p: seq<Attr>, q: seq<Attr>)
    ensures EndOf(i, p + q) == EndOf(EndOf(i, p), q)
    decreases |p|
  {
    if p == [] {
      assert p + q == q;
    } else {
      assert (p + q)[1..] == p[1..] + q && (p + q)[0] == p[0];
      EndConcat(i + Size(p[0]), p[1..], q);
    }
  }

  lemma {:induction false} HoldsConcat(b: seq<Byte>, i: nat, p: seq<Attr>, q: seq<Attr>)
    ensures HoldsAll(b, i, p + q) <==> HoldsAll(b, i, p) && HoldsAll(b, EndOf(i, p), q)
    decreases |p|
  {
    if p == [] {
      assert p + q == q;
    } else {
      assert (p + q)[1..] == p[1..] + q && (p + q)[0] == p[0];
      HoldsConcat(b, i + Size(p[0]), p[1..], q);
    }
  }

  /** What the attributes up to `end` say does not depend on the bytes after it. */
  lemma {:induction false} HoldsSame(b: seq<Byte>, b': seq<Byte>, i: nat, attrs: seq<Attr>)
    requires HoldsAll(b, i, attrs) && |b'| == |b|
    requires forall k :: i <= k < EndOf(i, attrs) && k < |b| ==> b'[k] == b[k]
    ensures HoldsAll(b', i, attrs)
    decreases |attrs|
  {
    if attrs != [] {
      var a, j := attrs[0], i + Size(attrs[0]);
      EndGrows(j, attrs[1..]);
      assert b'[i + 4..i + 4 + |a.payload|] == b[i + 4..i + 4 + |a.payload|];
      HoldsSame(b, b', j, attrs[1..]);
    }
  }

  lemma {:induction false} EndAligned(i: nat, attrs: seq<Attr>)
    requires i % 4 == 0
    ensures EndOf(i, attrs) % 4 == 0
    decreases |attrs|
  {
    if attrs != [] {
      EndAligned(i + Size(attrs[0]), attrs[1..]);
    }
  }

  /** A request under construction: a buffer, nlmsg_len, and the attributes from `start` on. */
  class Message {
    const buf: array<Byte>
    var len: nat
    ghost const start: nat
    ghost var attrs: seq<Attr>

    ghost predicate Valid()
      reads this, buf
    {
      && start % 4 == 0 && len == EndOf(start, attrs) <= buf.Length
      && HoldsAll(buf[..], start, attrs)
    }

    constructor (buf: array<Byte>, len: nat)
      requires len % 4 == 0 && len <= buf.Length
      ensures Valid() && attrs == [] && start == len && this.buf == buf
    {
      this.buf, this.len, start, attrs := buf, len, len, [];
    }

    /** addattr_l; where it would abort, the result is false. */
    method AddAttr(kind: nat, data: seq<Byte>) returns (ok: bool)
      requires Valid()
      modifies this, buf
      ensures Valid() && (ok <==> old(len) + Size(Attr(kind, data)) <= buf.Length)
      ensures attrs == if ok then old(attrs) + [Attr(kind, data)] else old(attrs)
      ensures len == if ok then old(len) + Size(Attr(kind, data)) else old(len)
      ensures forall i :: 0 <= i < old(len) ==> buf[i] == old(buf[i])
    {
      EndAligned(start, attrs);
      var a := Attr(kind, data);
      var rtaLen := 4 + |data|;
      if Align(len) + Align(rtaLen) > buf.Length {
        return false;
      }
      var tail := Align(len);
      ghost var before := buf[..];
      WriteAttr(tail, a);
      HoldsSame(before, buf[..], start, attrs);
      HoldsConcat(buf[..], start, attrs, [a]);
      EndConcat(start, attrs, [a]);
      len := Align(len) + Align(rtaLen);
      attrs := attrs + [a];
      ok := true;
    }

    /** The bytes of one attribute; its padding is not written. */
    method WriteAttr(tail: nat, a: Attr)
      requires tail + Size(a) <= buf.Length
      modifies buf
      ensures Holds(buf[..], tail, a)
      ensures forall i :: 0 <= i < tail ==> buf[i] == old(buf[i])
      ensures forall i :: tail + 4 + |a.payload| <= i < buf.Length ==> buf[i] == old(buf[i])
    {
      var rtaLen := 4 + |a.payload|;
      buf[tail], buf[tail + 1] := Low(rtaLen), High(rtaLen);
      buf[tail + 2], buf[tail + 3] := Low(a.kind), High(a.kind);
      forall i | 0 <= i < |a.payload| {
        buf[tail + 4 + i] := a.payload[i];
      }
      Stored16(buf[..], tail, rtaLen);
      Stored16(buf[..], tail + 2, a.kind);
      assert buf[..][tail + 4..tail + rtaLen] == a.payload;
    }

    /** The last line of the nesting in tc_replace_bpf_filter: the length of the attribute at
        `tail`, the `k`-th, is set so that it ends with the message. The attributes appended
        after it become its payload. */
    method CloseNested(tail: nat, ghost k: nat)
      requires Valid() && k < |attrs| && attrs[k].payload == [] && tail == EndOf(start, attrs[..k])
      modifies this, buf
      ensures Valid() && len == old(len) && tail + 4 <= len
      ensures attrs == old(attrs)[..k] + [Attr(old(attrs)[k].kind, buf[tail + 4..len])]
      ensures HoldsAll(buf[..], tail + 4, old(attrs)[k + 1..]) && EndOf(tail + 4, old(attrs)[k + 1..]) == len
      ensures forall i :: 0 <= i < tail ==> buf[i] == old(buf[i])
    {
      ghost var before, was := buf[..], attrs;
      SplitAt(before, start, was, k, tail);
      EndAligned(start, was);
      EndAligned(start, was[..k]);
      Multiples(len, tail);
      WriteLength(tail, len);
      assert forall i :: 0 <= i < tail ==> buf[..][i] == before[i];
      NestInner(before, buf[..], tail, len, was[k + 1..]);
      NestOuter(before, buf[..], start, tail, len, was[..k], was[k]);
      attrs := was[..k] + [Attr(was[k].kind, buf[tail + 4..len])];
      assert buf[..][tail + 4..len] == buf[tail + 4..len];
    }

    method WriteLength(tail: nat, end: nat)
      requires tail + 4 <= end <= buf.Length
      modifies buf
      ensures Relengthed(old(buf[..]), buf[..], tail, end)
    {
      var n := end - tail;
      buf[tail], buf[tail + 1] := Low(n), High(n);
      Stored16(buf[..], tail, n);
    }
  }

  /** `b'` is `b` but for the length field at `tail`, which reaches to `end`. */
  ghost predicate Relengthed(b: seq<Byte>, b': seq<Byte>, tail: nat, end: nat) {
    && tail + 4 <= end <= |b| == |b'|
    && Read16(b', tail) == Trunc16(end - tail)
    && forall j :: 0 <= j < |b| && j != tail && j != tail + 1 ==> b'[j] == b[j]
  }

  lemma NestInner(b: seq<Byte>, b': seq<Byte>, tail: nat, end: nat, inner: seq<Attr>)
    requires Relengthed(b, b', tail, end) && HoldsAll(b, tail + 4, inner)
    ensures HoldsAll(b', tail + 4, inner)
  {
    HoldsSame(b, b', tail + 4, inner);
  }

  lemma NestOuter(b: seq<Byte>, b': seq<Byte>, i: nat, tail: nat, end: nat, outer: seq<Attr>, options: Attr)
    requires Relengthed(b, b', tail, end) && HoldsAll(b, i, outer) && EndOf(i, outer) == tail && (end - tail) % 4 == 0
    requires Read16(b, tail + 2) == Trunc16(options.kind)
    ensures var nested := Attr(options.kind, b'[tail + 4..end]);
            HoldsAll(b', i, outer + [nested]) && EndOf(i, outer + [nested]) == end
  {
    HoldsSame(b, b', i, outer);
    NestedHolds(b', tail, options.kind, end);
    var nested := Attr(options.kind, b'[tail + 4..end]);
    HoldsConcat(b', i, outer, [nested]);
    EndConcat(i, outer, [nested]);
  }

  lemma Multiples(a: int, b: int)
    requires a % 4 == 0 && b % 4 == 0
    ensures (a - b) % 4 == 0
  {
  }

  lemma NestedHolds(b: seq<Byte>, tail: nat, kind: nat, end: nat)
    requires tail + 4 <= end <= |b| && (end - tail) % 4 == 0
    requires Read16(b, tail) == Trunc16(end - tail) && Read16(b, tail + 2) == Trunc16(kind)
    ensures var nested := Attr(kind, b[tail + 4..end]);
            && Holds(b, tail, nested) && Size(nested) == end - tail
            && HoldsAll(b, tail, [nested]) && EndOf(tail, [nested]) == end
  {
    var nested := Attr(kind, b[tail + 4..end]);
    assert [nested][1..] == [];
    assert Size(nested) == end - tail;
  }

  /** Cutting a list of attributes at one with an empty payload. */
  lemma SplitAt(b: seq<Byte>, i: nat, attrs: seq<Attr>, k: nat, tail: nat)
    requires HoldsAll(b, i, attrs) && k < |attrs| && attrs[k].payload == [] && tail == EndOf(i, attrs[..k])
    ensures HoldsAll(b, i, attrs[..k]) && Holds(b, tail, attrs[k]) && HoldsAll(b, tail + 4, attrs[k + 1..])
    ensures EndOf(tail + 4, attrs[k + 1..]) == EndOf(i, attrs) >= tail + 4 && tail >= i
  {
    var first, rest := attrs[..k], attrs[k..];
    assert attrs == first + rest && rest[0] == attrs[k] && rest[1..] == attrs[k + 1..];
    HoldsConcat(b, i, first, rest);
    EndConcat(i, first, rest);
    EndGrows(i, first);
    FirstEmpty(b, tail, rest);
  }

  lemma FirstEmpty(b: seq<Byte>, tail: nat, rest: seq<Attr>)
    requires rest != [] && rest[0].payload == [] && HoldsAll(b, tail, rest)
    ensures Holds(b, tail, rest[0]) && HoldsAll(b, tail + 4, rest[1..])
    ensures EndOf(tail, rest) == EndOf(tail + 4, rest[1..]) >= tail + 4
  {
    assert Size(rest[0]) == 4;
    EndGrows(tail + 4, rest[1..]);
  }

  const BPF: seq<Byte> := [98, 112, 102, 0]   // "bpf" with its zero byte
  const TCA_KIND := 1
  const TCA_OPTIONS := 2
  const TCA_BPF_FD := 6
  const TCA_BPF_NAME := 7
  const TCA_BPF_FLAGS := 8

  /** The four attributes inside TCA_OPTIONS. */
  function BpfOptions(fd: seq<Byte>, name: seq<Byte>, flags: seq<Byte>): seq<Attr> {
    [Attr(TCA_BPF_FD, fd), Attr(TCA_BPF_FD, fd), Attr(TCA_BPF_NAME, name), Attr(TCA_BPF_FLAGS, flags)]
  }

  method AddOptions(m: Message, fd: seq<Byte>, name: seq<Byte>, flags: seq<Byte>) returns (ok: bool)
    requires m.Valid()
    modifies m, m.buf
    ensures m.Valid() && (ok ==> m.attrs == old(m.attrs) + BpfOptions(fd, name, flags))
    ensures ok <==> old(m.len) + 2 * Align(4 + |fd|) + Align(4 + |name|) + Align(4 + |flags|) <= m.buf.Length
    ensures ok ==> m.len == old(m.len) + 2 * Align(4 + |fd|) + Align(4 + |name|) + Align(4 + |flags|)
    ensures forall i :: 0 <= i < old(m.len) ==> m.buf[i] == old(m.buf[i])
  {
    ok := m.AddAttr(TCA_BPF_FD, fd);
    if !ok { return; }
    ok := m.AddAttr(TCA_BPF_FD, fd);
    if !ok { return; }
    ok := m.AddAttr(TCA_BPF_NAME, name);
    if !ok { return; }
    ok := m.AddAttr(TCA_BPF_FLAGS, flags);
    if !ok { return; }
    assert m.attrs == old(m.attrs) + BpfOptions(fd, name, flags);
  }

  lemma VisitsIff(b: seq<Byte>, i: nat, attrs: seq<Attr>, end: nat)
    requires HoldsAll(b, i, attrs) && i <= EndOf(i, attrs) == end <= |b|
    ensures Visits(b, i, end, attrs) <==> forall a :: a in attrs ==> Fits(a)
  {
    RoundTripIff(b, i, attrs, end);
  }

  lemma OptionsFit(attrs: seq<Attr>, fd: seq<Byte>, name: seq<Byte>, flags: seq<Byte>)
    requires |fd| == 4 && |flags| == 4
    requires |attrs| == 2 && attrs[0] == Attr(TCA_KIND, BPF) && attrs[1].kind == TCA_OPTIONS
    requires |attrs[1].payload| == 24 + Align(4 + |name|)
    ensures (forall a :: a in attrs ==> Fits(a)) <==> |name| <= 65500
    ensures (forall a :: a in BpfOptions(fd, name, flags) ==> Fits(a)) <==> |name| <= 65531
  {
    assert attrs[0] in attrs && attrs[1] in attrs;
    var options := BpfOptions(fd, name, flags);
    assert options[2] in options;
  }

  /** The end of tc_replace_bpf_filter's building: the length of TCA_OPTIONS is set. */
  method CloseOptions(m: Message, tail: nat, ghost fd: seq<Byte>, ghost name: seq<Byte>, ghost flags: seq<Byte>)
    requires m.Valid() && m.attrs == [Attr(TCA_KIND, BPF), Attr(TCA_OPTIONS, [])] + BpfOptions(fd, name, flags)
    requires tail == EndOf(m.start, [Attr(TCA_KIND, BPF)]) && m.len == tail + 28 + Align(4 + |name|)
    requires |fd| == 4 && |flags| == 4
    modifies m, m.buf
    ensures tail + 4 <= m.len <= m.buf.Length
    ensures forall i :: 0 <= i < tail ==> m.buf[i] == old(m.buf[i])
    ensures Visits(m.buf[..], m.start, m.len, [Attr(TCA_KIND, BPF), Attr(TCA_OPTIONS, m.buf[tail + 4..m.len])])
       <==> |name| <= 65500
    ensures Visits(m.buf[..], tail + 4, m.len, BpfOptions(fd, name, flags)) <==> |name| <= 65531
  {
    ghost var inner := BpfOptions(fd, name, flags);
    assert m.attrs[..1] == [Attr(TCA_KIND, BPF)] && m.attrs[2..] == inner;
    m.CloseNested(tail, 1);
    OptionsFit(m.attrs, fd, name, flags);
    EndGrows(m.start, m.attrs);
    VisitsIff(m.buf[..], m.start, m.attrs, m.len);
    VisitsIff(m.buf[..], tail + 4, inner, m.len);
  }

  /** tc_replace_bpf_filter up to the call into the kernel: `fd` and `flags` are the bytes of
      32-bit numbers, and `name` is a string with its zero byte. A walk of the message finds the
      kind and the options, and a walk of the options finds what was put into them, exactly when
      the name leaves room for the 16-bit lengths. */
  method BuildBpfFilter(m: Message, fd: seq<Byte>, name: seq<Byte>, flags: seq<Byte>) returns (ok: bool, tail: nat)
    requires m.Valid() && m.attrs == [] && |fd| == 4 && |flags| == 4
    modifies m, m.buf
    ensures ok <==> old(m.len) + 36 + Align(4 + |name|) <= m.buf.Length
    ensures ok ==> tail + 4 <= m.len <= m.buf.Length
    ensures forall i :: 0 <= i < old(m.len) ==> m.buf[i] == old(m.buf[i])
    ensures ok ==> (Visits(m.buf[..], m.start, m.len, [Attr(TCA_KIND, BPF), Attr(TCA_OPTIONS, m.buf[tail + 4..m.len])])
                    <==> |name| <= 65500)
    ensures ok ==> (Visits(m.buf[..], tail + 4, m.len, BpfOptions(fd, name, flags)) <==> |name| <= 65531)
  {
    ok := m.AddAttr(TCA_KIND, BPF);
    tail := m.len;
    if !ok { return; }
    ok := m.AddAttr(TCA_OPTIONS, []);
    if !ok { return; }
    ok := AddOptions(m, fd, name, flags);
    if !ok { return; }
    assert EndOf(m.start, [Attr(TCA_KIND, BPF)]) == tail;
    CloseOptions(m, tail, fd, name, flags);
  }

  // ----- the request of tc_replace_bpf_filter

  const TCA_BUF_MAX := 64 * 1024
  const HEADERS := 36                           // struct nlmsghdr and struct tcmsg
  const REQUEST_SIZE := HEADERS + TCA_BUF_MAX   // sizeof(req)

  /** In the request as the program declares it, addattr_l aborts before a name can outgrow the
      16-bit lengths: whenever the message is built, both walks find what was put into it. */
  method ReplaceBpfFilter(buf: array<Byte>, fd: seq<Byte>, name: seq<Byte>, flags: seq<Byte>)
    returns (ok: bool, tail: nat, len: nat)
    requires buf.Length == REQUEST_SIZE && |fd| == 4 && |flags| == 4
    modifies buf
    ensures ok <==> |name| <= 65496
    ensures ok ==> tail + 4 <= len <= buf.Length
    ensures ok ==> Visits(buf[..], HEADERS, len, [Attr(TCA_KIND, BPF), Attr(TCA_OPTIONS, buf[tail + 4..len])])
    ensures ok ==> Visits(buf[..], tail + 4, len,
                          [Attr(TCA_BPF_FD, fd), Attr(TCA_BPF_FD, fd), Attr(TCA_BPF_NAME, name), Attr(TCA_BPF_FLAGS, flags)])
    ensures forall i :: 0 <= i < HEADERS ==> buf[i] == old(buf[i])
  {
    var m := new Message(buf, HEADERS);
    ok, tail := BuildBpfFilter(m, fd, name, flags);
    len := m.len;
  }

  /** On its own addattr_l does not look at the 16-bit length: in a request of that size a first
      attribute with 65532 bytes is accepted, its length is stored as 0, and a walk finds nothing. */
  method AddTooLong(buf: array<Byte>, kind: nat, data: seq<Byte>) returns (ok: bool, len: nat)
    requires buf.Length == REQUEST_SIZE && |data| == 65532
    modifies buf
    ensures ok && len == REQUEST_SIZE && Read16(buf[..], HEADERS) == 0
    ensures Visits(buf[..], HEADERS, len, [])
  {
    var m := new Message(buf, HEADERS);
    ok := m.AddAttr(kind, data);
    len := m.len;
    assert m.attrs == [Attr(kind, data)];
    assert Holds(buf[..], HEADERS, m.attrs[0]);
  }

  // ----- the search in get_iface_props

  const NLA_F_NESTED := 0x8000
  const IFLA_QDISC := 6
  const IFLA_NUM_TX_QUEUES := 31

  /** The payloads get_iface_props is after. */
  datatype Props = Props(txQueues: Option<seq<Byte>>, qdisc: Option<seq<Byte>>)

  /** The type as 16 bits, without the flag NLA_F_NESTED. */
  function TypeOf(a: Attr): nat {
    var kind := Trunc16(a.kind);
    if kind >= NLA_F_NESTED then kind - NLA_F_NESTED else kind
  }

  function Note(p: Props, a: Attr): Props {
    if TypeOf(a) == IFLA_NUM_TX_QUEUES then p.(txQueues := Some(a.payload))
    else if TypeOf(a) == IFLA_QDISC then p.(qdisc := Some(a.payload))
    else p
  }

  predicate Complete(p: Props) {
    p.txQueues.Some? && p.qdisc.Some?
  }

  /** Attributes are noted, later ones over earlier ones, until both kinds have been seen. */
  function Search(p: Props, attrs: seq<Attr>): Props
    decreases |attrs|
  {
    if attrs == [] || Complete(p) then p else Search(Note(p, attrs[0]), attrs[1..])
  }

  /** The type of an attribute is its kind without the flag in the highest of 16 bits. */
  predicate IsOf(a: Attr, t: nat) {
    a.kind % 0x8000 == t
  }

  predicate Occurs(attrs: seq<Attr>, t: nat) {
    exists a :: a in attrs && IsOf(a, t)
  }

  /** The search comes out complete exactly when both kinds are there. */
  lemma {:induction false} SearchFindsBoth(p: Props, attrs: seq<Attr>)
    ensures Complete(Search(p, attrs)) <==>
              && (p.txQueues.Some? || Occurs(attrs, IFLA_NUM_TX_QUEUES))
              && (p.qdisc.Some? || Occurs(attrs, IFLA_QDISC))
    decreases |attrs|
  {
    if attrs != [] && !Complete(p) {
      SearchFindsBoth(Note(p, attrs[0]), attrs[1..]);
      assert attrs == [attrs[0]] + attrs[1..];
      assert attrs[0] in attrs;
      assert forall t :: Occurs(attrs, t) <==> IsOf(attrs[0], t) || Occurs(attrs[1..], t);
    }
  }

  /** Both kinds are there. */
  predicate Both(attrs: seq<Attr>) {
    Occurs(attrs, IFLA_NUM_TX_QUEUES) && Occurs(attrs, IFLA_QDISC)
  }

  /** The payload of the last attribute of type `t`. */
  function LastOf(attrs: seq<Attr>, t: nat): (r: Option<seq<Byte>>)
    ensures r.Some? <==> Occurs(attrs, t)
  {
    if attrs == [] then None
    else
      var n := |attrs| - 1;
      assert attrs == attrs[..n] + [attrs[n]];
      if IsOf(attrs[n], t) then Some(attrs[n].payload) else LastOf(attrs[..n], t)
  }

  /** It is the last one: some attribute of that type has this payload, and none after it is of it. */
  lemma {:induction false} LastOfIs(attrs: seq<Attr>, t: nat) returns (i: nat)
    requires Occurs(attrs, t)
    ensures i < |attrs| && IsOf(attrs[i], t) && LastOf(attrs, t) == Some(attrs[i].payload)
    ensures forall j :: i < j < |attrs| ==> !IsOf(attrs[j], t)
    decreases |attrs|
  {
    var n := |attrs| - 1;
    assert attrs == attrs[..n] + [attrs[n]];
    if IsOf(attrs[n], t) {
      i := n;
    } else {
      i := LastOfIs(attrs[..n], t);
    }
  }

  function LastOfBoth(attrs: seq<Attr>): Props {
    Props(LastOf(attrs, IFLA_NUM_TX_QUEUES), LastOf(attrs, IFLA_QDISC))
  }

  lemma NoteLast(attrs: seq<Attr>, k: nat)
    requires k < |attrs|
    ensures Note(LastOfBoth(attrs[..k]), attrs[k]) == LastOfBoth(attrs[..k + 1])
  {
    assert attrs[..k + 1][..k] == attrs[..k];
  }

  lemma {:induction false} SearchFrom(attrs: seq<Attr>, k: nat) returns (n: nat)
    requires k <= |attrs| && forall j :: 0 <= j < k ==> !Both(attrs[..j])
    ensures k <= n <= |attrs| && (Both(attrs[..n]) || n == |attrs|) && forall j :: 0 <= j < n ==> !Both(attrs[..j])
    ensures Search(LastOfBoth(attrs[..k]), attrs[k..]) == LastOfBoth(attrs[..n])
    decreases |attrs| - k
  {
    if k == |attrs| || Both(attrs[..k]) {
      n := k;
    } else {
      NoteLast(attrs, k);
      assert attrs[k..][0] == attrs[k] && attrs[k..][1..] == attrs[k + 1..];
      n := SearchFrom(attrs, k + 1);
    }
  }

  /** Which payloads the search returns: those of the last attribute of either kind among the
      first `n`, where `n` is the least number in which both occur, or all there are. */
  lemma SearchReturns(attrs: seq<Attr>) returns (n: nat)
    ensures n <= |attrs| && (Both(attrs[..n]) || n == |attrs|) && forall j :: 0 <= j < n ==> !Both(attrs[..j])
    ensures Search(Props(None, None), attrs) == LastOfBoth(attrs[..n])
  {
    n := SearchFrom(attrs, 0);
    assert attrs[..0] == [] && attrs[0..] == attrs;
  }

  /** The search is at `at`, with `left` bytes to go, and comes out as `goal`. */
  ghost predicate Searching(b: seq<Byte>, p: Props, at: nat, left: int, goal: Props) {
    && (left <= 0 || at + left <= |b|) && !Complete(p)
    && var searching := Search(p, Walk(b, at, left)) == goal;
       searching
  }

  /** The attribute at `i`, when the walk visits it. */
  function AttrAt(b: seq<Byte>, i: nat): Attr
    requires i + 4 <= |b| && 4 <= Read16(b, i) <= |b| - i
  {
    Attr(Read16(b, i + 2), b[i + 4..i + Read16(b, i)])
  }

  /** One more attribute is looked at: the search goes on behind it, or is over. */
  lemma SearchStep(b: seq<Byte>, p: Props, at: nat, left: int, goal: Props)
    requires Searching(b, p, at, left, goal) && 4 <= left && 4 <= Read16(b, at) <= left
    ensures var p', size := Note(p, AttrAt(b, at)), Align(Read16(b, at));
            if Complete(p') then p' == goal else Searching(b, p', at + size, left - size, goal)
  {
    var a, size := AttrAt(b, at), Align(Read16(b, at));
    var rest := Walk(b, at + size, left - size);
    assert Walk(b, at, left) == [a] + rest;
    SearchOne(p, a, rest);
  }

  lemma SearchOne(p: Props, a: Attr, rest: seq<Attr>)
    requires !Complete(p)
    ensures Search(p, [a] + rest) == Search(Note(p, a), rest)
    ensures Complete(Note(p, a)) ==> Search(Note(p, a), rest) == Note(p, a)
  {
    assert ([a] + rest)[0] == a && ([a] + rest)[1..] == rest;
  }

  /** The loop of get_iface_props over `n` bytes of answer from `i` on. */
  method SearchAnswer(b: seq<Byte>, i: nat, n: nat) returns (p: Props)
    requires i + n <= |b|
    ensures p == Search(Props(None, None), Walk(b, i, n))
  {
    ghost var goal := Search(Props(None, None), Walk(b, i, n));
    p := Props(None, None);
    var at: nat, left: int := i, n;
    while 4 <= left && 4 <= Read16(b, at) <= left
      invariant Searching(b, p, at, left, goal)
      decreases left
    {
      SearchStep(b, p, at, left, goal);
      var size := Align(Read16(b, at));
      p := Note(p, AttrAt(b, at));
      if Complete(p) {
        return;
      }
      at, left := at + size, left - size;
    }
  }

  // ----- what the two payloads say

  /** enum qdisc_kind */
  datatype Qdisc = Mq | Fq | Noqueue | Clsact | Other

  const FQ: seq<Byte> := [102, 113, 0]
  const MQ: seq<Byte> := [109, 113, 0]
  const NOQUEUE: seq<Byte> := [110, 111, 113, 117, 101, 117, 101, 0]
  const CLSACT: seq<Byte> := [99, 108, 115, 97, 99, 116, 0]

  /** strcmp of the string at the start of a payload with `s`, which ends with its zero byte:
      whether the two are equal, or None where the comparison runs past the payload. */
  function StringEquals(payload: seq<Byte>, s: seq<Byte>): Option<bool>
    requires s != []
    decreases |s|
  {
    if payload == [] then None
    else if payload[0] != s[0] then Some(false)
    else if |s| == 1 then Some(true)
    else StringEquals(payload[1..], s[1..])
  }

  /** A payload is the string `s` exactly if it starts with it and its zero byte; the comparison
      runs past the payload exactly if that is cut short before they differ. */
  lemma {:induction false} StringEqualsIff(payload: seq<Byte>, s: seq<Byte>)
    requires s != []
    ensures StringEquals(payload, s) == Some(true) <==> s <= payload
    ensures StringEquals(payload, s) == None <==> payload < s
    decreases |s|
  {
    if payload != [] && payload[0] == s[0] && |s| > 1 {
      StringEqualsIff(payload[1..], s[1..]);
      assert payload == [payload[0]] + payload[1..] && s == [s[0]] + s[1..];
    }
  }

  /** The cascade of comparisons in get_iface_props. */
  function QdiscOf(payload: seq<Byte>): Option<Qdisc> {
    match StringEquals(payload, FQ)
    case None => None
    case Some(true) => Some(Fq)
    case Some(false) =>
      match StringEquals(payload, MQ)
      case None => None
      case Some(true) => Some(Mq)
      case Some(false) =>
        match StringEquals(payload, NOQUEUE)
        case None => None
        case Some(true) => Some(Noqueue)
        case Some(false) =>
          match StringEquals(payload, CLSACT)
          case None => None
          case Some(true) => Some(Clsact)
          case Some(false) => Some(Other)
  }

  /** Each kind is found exactly for its own name, whatever follows it. Only a payload that is
      one of the names cut short cannot be told. */
  lemma QdiscOfIff(payload: seq<Byte>)
    ensures QdiscOf(payload) == Some(Fq) <==> FQ <= payload
    ensures QdiscOf(payload) == Some(Mq) <==> MQ <= payload
    ensures QdiscOf(payload) == Some(Noqueue) <==> NOQUEUE <= payload
    ensures QdiscOf(payload) == Some(Clsact) <==> CLSACT <= payload
    ensures QdiscOf(payload) == None <==> payload < FQ || payload < MQ || payload < NOQUEUE || payload < CLSACT
  {
    StringEqualsIff(payload, FQ);
    StringEqualsIff(payload, MQ);
    StringEqualsIff(payload, NOQUEUE);
    StringEqualsIff(payload, CLSACT);
  }

  /** The four bytes that addattr32 appends. */
  function Bytes32(x: nat): (r: seq<Byte>)
    ensures |r| == 4
  {
    [Low(x), High(x), Low(x / 65536), High(x / 65536)]
  }

  /** rta_getattr_u32; None where it reads past the payload. */
  function U32(payload: seq<Byte>): Option<nat> {
    if |payload| < 4 then None else Some(Read16(payload, 0) + 65536 * Read16(payload, 2))
  }

  lemma U32RoundTrip(x: nat, more: seq<Byte>)
    requires x < 0x1_0000_0000
    ensures U32(Bytes32(x) + more) == Some(x)
  {
    var b := Bytes32(x) + more;
    Stored16(b, 0, x);
    Stored16(b, 2, x / 65536);
  }

  /** A 32-bit number as an int. */
  function ToInt(x: nat): int {
    if x < 0x8000_0000 then x else x - 0x1_0000_0000
  }

  /** struct iface_attr; None is a number or a name that its attribute does not hold completely. */
  datatype Iface = Iface(numTxQueues: Option<int>, qdisc: Option<Qdisc>)

  function Decoded(p: Props): Iface
    requires Complete(p)
  {
    var n := U32(p.txQueues.value);
    Iface(if n.Some? then Some(ToInt(n.value)) else None, QdiscOf(p.qdisc.value))
  }

  /** The number with the given bytes, lowest first. */
  function Number(b0: int, b1: int, b2: int, b3: int): int {
    b0 + 0x100 * b1 + 0x1_0000 * b2 + 0x100_0000 * b3
  }

  /** What the two payloads say, byte by byte: the number is the first four bytes, lowest first, in
      two's complement, and is missing exactly if there are fewer; each kind is found exactly for
      its own name and zero byte, and is missing exactly for a name cut short. */
  ghost predicate Says(iface: Iface, n: seq<Byte>, q: seq<Byte>) {
    && (iface.numTxQueues == None <==> |n| < 4)
    && (|n| >= 4 ==>
          var x := Number(n[0], n[1], n[2], n[3]);
          iface.numTxQueues == Some(if x < 0x8000_0000 then x else x - 0x1_0000_0000))
    && (iface.qdisc == Some(Fq) <==> [102, 113, 0] <= q)
    && (iface.qdisc == Some(Mq) <==> [109, 113, 0] <= q)
    && (iface.qdisc == Some(Noqueue) <==> [110, 111, 113, 117, 101, 117, 101, 0] <= q)
    && (iface.qdisc == Some(Clsact) <==> [99, 108, 115, 97, 99, 116, 0] <= q)
    && (iface.qdisc == None <==> q < FQ || q < MQ || q < NOQUEUE || q < CLSACT)
  }

  lemma DecodedSays(p: Props)
    requires Complete(p)
    ensures Says(Decoded(p), p.txQueues.value, p.qdisc.value)
  {
    QdiscOfIff(p.qdisc.value);
    NumberIs(p.txQueues.value);
  }

  lemma NumberIs(n: seq<Byte>)
    ensures U32(n) == None <==> |n| < 4
    ensures |n| >= 4 ==> U32(n) == Some(Number(n[0], n[1], n[2], n[3]))
  {
  }

  /** get_iface_props from the answer on: it fails exactly when one of the two attributes is
      missing; otherwise it says what the last of either kind says, among the first `k`, where
      `k` is the least number in which both occur. */
  method GetIfaceProps(b: seq<Byte>, i: nat, n: nat) returns (iface: Option<Iface>, ghost k: nat)
    requires i + n <= |b|
    ensures iface.Some? <==> Both(Walk(b, i, n))
    ensures iface.Some? ==> k <= |Walk(b, i, n)| && Both(Walk(b, i, n)[..k])
    ensures iface.Some? ==> forall j :: 0 <= j < k ==> !Both(Walk(b, i, n)[..j])
    ensures iface.Some? ==> var first := Walk(b, i, n)[..k];
              Says(iface.value, LastOf(first, IFLA_NUM_TX_QUEUES).value, LastOf(first, IFLA_QDISC).value)
  {
    var p := SearchAnswer(b, i, n);
    SearchFindsBoth(Props(None, None), Walk(b, i, n));
    k := SearchReturns(Walk(b, i, n));
    if !Complete(p) {
      return None, k;
    }
    DecodedSays(p);
    iface := Some(Decoded(p));
  }
}
