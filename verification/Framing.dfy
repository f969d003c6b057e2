/**
 Message framing of the TCP transport (btl_tcp2.c, btl_tcp2_frag.c, btl_tcp2_endpoint.c): SEND fragments, submitted
 before and after the endpoint is connected, over a socket that takes and gives any number of bytes at a time.
 */
module Framing {

  newtype Byte = x: int | 0 <= x < 256

  datatype Option<T> = None | Some(value: T)

  /** What is submitted on one side and delivered on the other. */
  datatype Msg = Msg(tag: Byte, payload: seq<Byte>)

  const HDR_SIZE := 8
  const HDR_TYPE_SEND: Byte := 1

  const INT_MAX := 0x7fff_ffff
  const WORDS := 0x1_0000_0000

  /** The size field of a header is a 32-bit word. */
  predicate Sendable(m: Msg) { |m.payload| < WORDS }

  /** Lengths are compared as int, so a payload should not be longer than that; see DoneExact and ReadExact. */
  ghost predicate Counted(ms: seq<Msg>) { forall i :: 0 <= i < |ms| ==> |ms[i].payload| <= INT_MAX }

  /** The header in network byte order: tag, type, count and size. */
  function Header(m: Msg): (h: seq<Byte>)
    requires Sendable(m)
    ensures |h| == HDR_SIZE
  {
    SizedHeader(m.tag, |m.payload|)
  }

  function SizedHeader(tag: Byte, n: nat): (h: seq<Byte>)
    requires n < WORDS
    ensures |h| == HDR_SIZE
  {
    [tag, HDR_TYPE_SEND, 0, 0]
    + [(n / 0x100_0000) as Byte, (n / 0x1_0000 % 0x100) as Byte, (n / 0x100 % 0x100) as Byte, (n % 0x100) as Byte]
  }

  function SizeIn(h: seq<Byte>): nat
    requires |h| == HDR_SIZE
  {
    h[4] as nat * 0x100_0000 + h[5] as nat * 0x1_0000 + h[6] as nat * 0x100 + h[7] as nat
  }

  lemma HeaderRoundTrip(m: Msg)
    requires Sendable(m)
    ensures SizeIn(Header(m)) == |m.payload| && Header(m)[..4] == [m.tag, HDR_TYPE_SEND, 0, 0]
  {
    var n := |m.payload|;
    assert n == n / 0x100 * 0x100 + n % 0x100;
    assert n / 0x100 == n / 0x1_0000 * 0x100 + n / 0x100 % 0x100;
    assert n / 0x1_0000 == n / 0x100_0000 * 0x100 + n / 0x1_0000 % 0x100;
  }

  /** Network byte order: sizes compare as their bytes do, the first that differs deciding. */
  lemma NetworkOrder(tag: Byte, m: nat, n: nat) returns (k: nat)
    requires m < n < WORDS
    ensures 4 <= k < HDR_SIZE && SizedHeader(tag, m)[..k] == SizedHeader(tag, n)[..k]
    ensures SizedHeader(tag, m)[k] < SizedHeader(tag, n)[k]
  {
    Digits(m);
    Digits(n);
    var x, y := SizedHeader(tag, m), SizedHeader(tag, n);
    k := if x[4] != y[4] then 4 else if x[5] != y[5] then 5 else if x[6] != y[6] then 6 else 7;
  }

  lemma Digits(n: nat)
    requires n < WORDS
    ensures var h := SizedHeader(0, n);
      n == h[4] as int * 0x100_0000 + h[5] as int * 0x1_0000 + h[6] as int * 0x100 + h[7] as int
  {
    assert n == n / 0x100 * 0x100 + n % 0x100;
    assert n / 0x100 == n / 0x1_0000 * 0x100 + n / 0x100 % 0x100;
    assert n / 0x1_0000 == n / 0x100_0000 * 0x100 + n / 0x1_0000 % 0x100;
  }

  /** A message on the wire. */
  function Wire(m: Msg): seq<Byte>
    requires Sendable(m)
  {
    Header(m) + m.payload
  }

  predicate AllSendable(ms: seq<Msg>) { forall i :: 0 <= i < |ms| ==> Sendable(ms[i]) }

  function Stream(ms: seq<Msg>): seq<Byte>
    requires AllSendable(ms)
  {
    if ms == [] then [] else Wire(ms[0]) + Stream(ms[1..])
  }

  lemma {:induction false} StreamSnoc(ms: seq<Msg>, m: Msg)
    requires AllSendable(ms) && Sendable(m)
    ensures AllSendable(ms + [m]) && Stream(ms + [m]) == Stream(ms) + Wire(m)
    decreases |ms|
  {
    if ms == [] {
      assert [] + [m] == [m] && [m][1..] == [];
    } else {
      assert (ms + [m])[1..] == ms[1..] + [m];
      StreamSnoc(ms[1..], m);
      assert Wire(ms[0]) + (Stream(ms[1..]) + Wire(m)) == Wire(ms[0]) + Stream(ms[1..]) + Wire(m);
    }
  }

  // ---------------------------------------------------------------- the socket

  /** A call of readv or writev: where it began in the byte stream, how many bytes were asked for and how many could
      have been given, and how many were moved. */
  datatype Call = Call(at: nat, asked: nat, there: nat, n: nat)

  /** A call that moves something if it can. */
  predicate Willing(c: Call) { c.n > 0 || c.asked == 0 || c.there == 0 }

  /** All calls from k on do. */
  ghost predicate AllWilling(calls: seq<Call>, k: nat) { forall i :: k <= i < |calls| ==> Willing(calls[i]) }

  /** Each call begins where the one before it ended, and the last one ended at the given place. */
  ghost predicate Chained(calls: seq<Call>, end: nat) {
    && (if calls == [] then end == 0 else calls[0].at == 0)
    && forall i :: 0 <= i < |calls| ==> calls[i].at + calls[i].n == Next(calls, i, end) && calls[i].n <= calls[i].asked
  }

  function Next(calls: seq<Call>, i: nat, end: nat): nat { if i + 1 < |calls| then calls[i + 1].at else end }

  lemma ChainGrows(calls: seq<Call>, end: nat, c: Call)
    requires Chained(calls, end) && c.at == end && c.n <= c.asked
    ensures Chained(calls + [c], end + c.n)
  {
    var cs := calls + [c];
    forall i | 0 <= i < |cs| ensures cs[i].at + cs[i].n == Next(cs, i, end + c.n) && cs[i].n <= cs[i].asked {
      if i < |calls| { assert calls[i].at + calls[i].n == Next(calls, i, end); }
    }
  }

  /** A connected socket: bytes come out in the order they went in, in pieces of any size. */
  class Socket {
    var sent: seq<Byte>
    var read: nat
    ghost var readings: seq<Call>
    ghost var writings: seq<Call>

    ghost predicate Valid()
      reads this
    {
      read <= |sent| && Chained(readings, read) && Chained(writings, |sent|)
    }

    constructor ()
      ensures Valid() && sent == [] && read == 0 && readings == [] && writings == []
    {
      sent, read, readings, writings := [], 0, [], [];
    }

    /** writev: takes some prefix of the data; none of it stands for EWOULDBLOCK. */
    method Writev(data: seq<Byte>) returns (n: nat)
      requires Valid()
      modifies this`sent, this`writings
      ensures Valid() && n <= |data| && n <= INT_MAX && sent == old(sent) + data[..n]
      ensures writings == old(writings) + [Call(|old(sent)|, |data|, |data|, n)]
    {
      hide Chained;
      n :| 0 <= n <= |data| && n <= INT_MAX;
      ChainGrows(writings, |sent|, Call(|sent|, |data|, |data|, n));
      writings := writings + [Call(|sent|, |data|, |data|, n)];
      sent := sent + data[..n];
    }

    /** readv: gives some of the bytes that arrived, at most max; none stands for EWOULDBLOCK. */
    method Readv(max: nat) returns (data: seq<Byte>)
      requires Valid()
      modifies this`read, this`readings
      ensures Valid() && |data| <= max && |data| <= INT_MAX && read == old(read) + |data|
      ensures data == sent[old(read)..read]
      ensures readings == old(readings) + [Call(old(read), max, |sent| - old(read), |data|)]
    {
      hide Chained;
      var n: nat :| n <= max && n <= INT_MAX && n <= |sent| - read;
      ChainGrows(readings, read, Call(read, max, |sent| - read, n));
      readings := readings + [Call(read, max, |sent| - read, n)];
      data := sent[read..read + n];
      read := read + n;
    }
  }

  /** What was moved by calls that follow given ones. */
  lemma {:induction false} Moved(calls: seq<Call>, k: nat, end: nat)
    requires Chained(calls, end) && k < |calls|
    ensures calls[k].at <= calls[k].at + calls[k].n <= end
    decreases |calls| - k
  {
    assert calls[k].at + calls[k].n == Next(calls, k, end);
    if k + 1 < |calls| { Moved(calls, k + 1, end); }
  }

  // ---------------------------------------------------------------- sending

  /** The iovecs of a fragment that are still to be written. */
  function Left(iov: seq<seq<Byte>>): seq<Byte> {
    if iov == [] then [] else iov[0] + Left(iov[1..])
  }

  function LeftAll(frags: seq<seq<seq<Byte>>>): seq<Byte> {
    if frags == [] then [] else Left(frags[0]) + LeftAll(frags[1..])
  }

  lemma {:induction false} LeftAllSnoc(frags: seq<seq<seq<Byte>>>, f: seq<seq<Byte>>)
    ensures LeftAll(frags + [f]) == LeftAll(frags) + Left(f)
    decreases |frags|
  {
    if frags == [] {
      assert [] + [f] == [f] && [f][1..] == [];
    } else {
      assert (frags + [f])[1..] == frags[1..] + [f];
      LeftAllSnoc(frags[1..], f);
      assert Left(frags[0]) + (LeftAll(frags[1..]) + Left(f)) == Left(frags[0]) + LeftAll(frags[1..]) + Left(f);
    }
  }

  /** The value of a cast to int. */
  function Int(n: int): int {
    var m := n % WORDS;
    if m <= INT_MAX then m else m - WORDS
  }

  lemma IntIs(n: nat)
    ensures Int(n) <= n && (n <= INT_MAX ==> Int(n) == n) && (INT_MAX < n < WORDS ==> Int(n) < 0)
  {
  }

  /** How many iovecs of the given lengths count as complete after cnt bytes were written or read. */
  function Passed(lens: seq<int>, cnt: int): nat {
    if lens != [] && cnt >= Int(lens[0]) then 1 + Passed(lens[1..], Int(cnt - lens[0])) else 0
  }

  function Lengths(iov: seq<seq<Byte>>): seq<int> { seq(|iov|, i requires 0 <= i < |iov| => |iov[i]|) }

  /** A fragment with one segment is taken for complete exactly when it is, however much is written, if and only if
      the segment is not longer than an int can say. */
  lemma DoneExact(len: nat)
    requires len < WORDS
    ensures (forall n: nat :: n <= INT_MAX && n <= HDR_SIZE + len ==>
              (Passed([HDR_SIZE, len], n) == 2 <==> n == HDR_SIZE + len))
       <==> len <= INT_MAX
  {
    forall n: nat | n <= INT_MAX && n <= HDR_SIZE + len
      ensures Passed([HDR_SIZE, len], n) == 2 <==> n >= HDR_SIZE && n - HDR_SIZE >= Int(len)
    {
      PassedTwo(len, n);
    }
    IntIs(len);
    if len > INT_MAX { TooLong(len, HDR_SIZE); }
  }

  lemma PassedTwo(len: nat, n: nat)
    requires n <= INT_MAX
    ensures Passed([HDR_SIZE, len], n) == 2 <==> n >= HDR_SIZE && n - HDR_SIZE >= Int(len)
  {
    hide Int;
    var lens := [HDR_SIZE, len];
    assert lens[1..] == [len] && [len][1..] == [];
    IntIs(HDR_SIZE);
    if n >= HDR_SIZE {
      IntIs(n - HDR_SIZE);
      assert Passed([], Int(n - HDR_SIZE - len)) == 0;
      assert Passed(lens, n) == 1 + Passed([len], n - HDR_SIZE);
    }
  }

  /** From 2147483648 bytes on, the fragment is taken for complete as soon as its header is written. */
  lemma TooLong(len: nat, n: nat)
    requires INT_MAX < len < WORDS && HDR_SIZE <= n <= INT_MAX
    ensures Passed([HDR_SIZE, len], n) == 2 && n < HDR_SIZE + len
  {
    PassedTwo(len, n);
  }

  /** The rest of the iovecs after n bytes were written. If it is taken for nothing, some iovec may be too long. */
  method AdvanceIov(iov: seq<seq<Byte>>, n: nat) returns (rest: seq<seq<Byte>>)
    requires n <= |Left(iov)| && n <= INT_MAX && ShortButLast(iov)
    ensures |iov| - |rest| == Passed(Lengths(iov), n) && ShortButLast(rest)
    ensures rest != [] || Short(iov) ==> Left(rest) == Left(iov)[n..]
    ensures rest != [] ==> n < |Left(iov)|
    ensures Short(iov) ==> Short(rest) && (rest == [] <==> n == |Left(iov)|)
  {
    hide Int, Left, Behind, Passed, Lengths;
    LeftBehind(iov);
    rest := iov;
    var cnt := n;
    var i := 0;
    ghost var all := Left(iov);
    while i < |iov|
      invariant 0 <= i <= |iov| && |rest| == |iov| - i && ShortButLast(rest) && (Short(iov) ==> Short(rest))
      invariant rest != [] || Short(iov) ==> 0 <= cnt <= n && cnt <= |Left(rest)| && Behind(all, n - cnt, Left(rest))
      invariant Passed(Lengths(iov), n) == i + Passed(Lengths(rest), cnt)
    {
      IntIs(|rest[0]|);
      PassedFirst(rest, cnt);
      LeftFirst(rest);
      BehindFirst(all, n - cnt, rest[0], Left(rest[1..]));
      if cnt >= Int(|rest[0]|) {
        if |rest[0]| <= INT_MAX { IntIs(cnt - |rest[0]|); }
        cnt := Int(cnt - |rest[0]|);
        rest := rest[1..];
      } else {
        ghost var was := rest;
        rest := rest[0 := rest[0][cnt..]];
        assert rest[1..] == was[1..];
        LeftFirst(rest);
        BehindPart(all, n - cnt, was[0], Left(was[1..]), cnt);
        return;
      }
      i := i + 1;
    }
    NoneLeft();
    PassedNone(cnt);
    BehindAll(all, n - cnt);
  }

  lemma LeftFirst(iov: seq<seq<Byte>>)
    requires iov != []
    ensures Left(iov) == iov[0] + Left(iov[1..])
  {
  }

  lemma LeftBehind(iov: seq<seq<Byte>>)
    ensures Behind(Left(iov), 0, Left(iov))
  {
  }

  lemma PassedFirst(iov: seq<seq<Byte>>, cnt: int)
    requires iov != []
    ensures Passed(Lengths(iov), cnt)
         == if cnt >= Int(|iov[0]|) then 1 + Passed(Lengths(iov[1..]), Int(cnt - |iov[0]|)) else 0
  {
    hide Int;
    assert Lengths(iov)[1..] == Lengths(iov[1..]);
  }

  lemma PassedNone(cnt: int)
    ensures Passed(Lengths([]), cnt) == 0
  {
  }

  lemma BehindFirst(all: seq<Byte>, n: int, a: seq<Byte>, b: seq<Byte>)
    ensures n >= 0 && Behind(all, n, a + b) ==> Behind(all, n + |a|, b)
  {
    if n >= 0 && Behind(all, n, a + b) { assert all[n..][|a|..] == b; }
  }

  lemma BehindPart(all: seq<Byte>, n: nat, a: seq<Byte>, b: seq<Byte>, k: nat)
    requires Behind(all, n, a + b) && k <= |a|
    ensures n + k <= |all| && all[n + k..] == a[k..] + b && |all| == n + |a| + |b|
  {
    assert all[n..][k..] == a[k..] + b;
  }

  lemma BehindAll(all: seq<Byte>, n: int)
    ensures n >= 0 && Behind(all, n, []) ==> n == |all| && all[n..] == []
  {
  }

  /** What lies behind the first n bytes of all. */
  ghost predicate Behind(all: seq<Byte>, n: nat, left: seq<Byte>) { n + |left| == |all| && all[n..] == left }

  /** No iovec is longer than an int can say. */
  predicate Short(iov: seq<seq<Byte>>) { forall i :: 0 <= i < |iov| ==> |iov[i]| <= INT_MAX }

  /** None but perhaps the last one. */
  predicate ShortButLast(iov: seq<seq<Byte>>) { forall i :: 0 <= i < |iov| - 1 ==> |iov[i]| <= INT_MAX }

  lemma {:induction false} ShortParts(iov: seq<seq<Byte>>)
    requires |Left(iov)| <= INT_MAX
    ensures Short(iov)
  {
    if iov != [] { ShortParts(iov[1..]); }
  }

  class Sender {
    const sock: Socket
    var connected: bool
    var frags: seq<seq<seq<Byte>>>
    var current: Option<seq<seq<Byte>>>
    ghost var submitted: seq<Msg>

    function Pending(): seq<Byte>
      reads this
    {
      (if current.Some? then Left(current.value) else []) + LeftAll(frags)
    }

    /** Unless a payload was too long, what was written and what is pending is the stream of the messages submitted.
        Nothing is being written before the endpoint is connected, and then something is as long as anything is
        pending. */
    ghost predicate Valid()
      reads this, sock
    {
      && sock.Valid() && AllSendable(submitted)
      && (current.None? && connected ==> frags == []) && (!connected ==> current.None?)
      && (current.Some? ==> ShortButLast(current.value)) && (forall i :: 0 <= i < |frags| ==> ShortButLast(frags[i]))
      && (Counted(submitted) ==> Complete())
    }

    ghost predicate Complete()
      requires AllSendable(submitted)
      reads this, sock
    {
      && Stream(submitted) == sock.sent + Pending()
      && (current.Some? ==> Short(current.value)) && forall i :: 0 <= i < |frags| ==> Short(frags[i])
    }

    constructor (s: Socket)
      requires s.Valid() && s.sent == []
      ensures Valid() && sock == s && submitted == [] && current == None && !connected
    {
      sock, connected, frags, current, submitted := s, false, [], None, [];
    }

    /** mca_btl_tcp2_frag_send: writes what the socket takes. */
    method FragSend(iov: seq<seq<Byte>>) returns (rest: seq<seq<Byte>>, done: bool, ghost n: nat)
      requires sock.Valid() && ShortButLast(iov)
      modifies sock`sent, sock`writings
      ensures sock.Valid() && n <= |Left(iov)| && n <= INT_MAX && sock.sent == old(sock.sent) + Left(iov)[..n]
      ensures |iov| - |rest| == Passed(Lengths(iov), n) && ShortButLast(rest) && (done <==> rest == [])
      ensures !done || Short(iov) ==> sock.sent + Left(rest) == old(sock.sent) + Left(iov)
      ensures Short(iov) ==> Short(rest) && (done <==> n == |Left(iov)|)
      ensures sock.writings == old(sock.writings) + [Call(|old(sock.sent)|, |Left(iov)|, |Left(iov)|, n)]
      ensures !done ==> n < |Left(iov)|
    {
      hide Chained, Left, Passed, Lengths, Short, ShortButLast;
      NoneLeft();
      var m := sock.Writev(Left(iov));
      rest := AdvanceIov(iov, m);
      done := |rest| == 0;
      n := m;
      assert Left(iov) == Left(iov)[..n] + Left(iov)[n..];
    }

    /** mca_btl_tcp2_send and mca_btl_tcp2_endpoint_send: a message in any number of segments is queued until the
        endpoint is connected, and then written as far as nothing else is being written. */
    method Send(tag: Byte, segments: seq<seq<Byte>>, priority: bool)
      requires Valid() && |Left(segments)| < WORDS && ShortButLast(segments)
      modifies this, sock`sent, sock`writings
      ensures Valid() && submitted == old(submitted) + [Msg(tag, Left(segments))]
      ensures old(sock.sent) <= sock.sent && connected == old(connected) && old(sock.writings) <= sock.writings
      ensures |sock.writings| - |old(sock.writings)| == if connected && old(current).None? && priority then 1 else 0
    {
      hide Stream, Left, Wire, AllSendable, Counted, Short, ShortButLast, Passed, Lengths, Chained, LeftAll;
      ghost var m := Msg(tag, Left(segments));
      var iov := [HeaderOf(tag, segments)] + segments;
      SegmentsLeft(m, segments);
      StreamSnoc(submitted, m);
      CountedSnoc(submitted, m);
      submitted := submitted + [m];
      ghost var was, n := sock.sent, 0;
      if !connected {
        LeftAllSnoc(frags, iov);
        Regroup(was, [], LeftAll(frags), Wire(m));
        frags := frags + [iov];
      } else if current.None? {
        var rest, done := iov, false;
        if priority {
          rest, done, n := FragSend(iov);
        }
        if !done { current := Some(rest); }
        if was + Wire(m) == sock.sent + Left(rest) { NothingPending(was, sock.sent, rest, Wire(m)); }
      } else {
        LeftAllSnoc(frags, iov);
        Regroup(was, Left(current.value), LeftAll(frags), Wire(m));
        frags := frags + [iov];
      }
    }

    /** mca_btl_tcp2_endpoint_connected: what was queued starts to be written. */
    method Connected()
      requires Valid()
      modifies this
      ensures Valid() && connected && submitted == old(submitted)
    {
      hide Stream, Left;
      connected := true;
      if |frags| > 0 {
        if current.None? {
          ghost var was := Pending();
          current, frags := Some(frags[0]), frags[1..];
          assert Pending() == was;
        }
      }
    }

    /** mca_btl_tcp2_endpoint_send_handler on a connected endpoint. */
    method SendHandler()
      requires Valid()
      modifies this, sock`sent, sock`writings
      ensures Valid() && submitted == old(submitted) && old(sock.sent) <= sock.sent && connected == old(connected)
      // It goes on until nothing is pending or the socket takes less than it is offered.
      ensures old(sock.writings) <= sock.writings && (old(current).Some? ==> |old(sock.writings)| < |sock.writings|)
      ensures current.Some? ==>
                && |old(sock.writings)| < |sock.writings|
                && var last := sock.writings[|sock.writings| - 1]; last.n < last.asked == last.there
      ensures old(current).None? ==> current.None?
    {
      hide Stream, Left, Chained, AllSendable, Counted, Short, ShortButLast, Passed, Lengths;
      while current.Some?
        invariant Valid() && submitted == old(submitted) && old(sock.sent) <= sock.sent && connected == old(connected)
        invariant old(sock.writings) <= sock.writings
        invariant old(current).Some? && current != old(current) ==> |old(sock.writings)| < |sock.writings|
        invariant old(current).None? ==> current.None?
        decreases if current.Some? then 1 + |frags| else 0
      {
        ghost var was, left := sock.sent, LeftAll(frags);
        ghost var n;
        var rest, done;
        rest, done, n := FragSend(current.value);
        if was + Left(current.value) == sock.sent + Left(rest) {
          Replace(was, Left(current.value), sock.sent, Left(rest), left);
        }
        if !done {
          current := Some(rest);
          break;
        }
        NoneLeft();
        if frags == [] {
          current := None;
        } else {
          current, frags := Some(frags[0]), frags[1..];
        }
      }
    }
  }

  lemma NoneLeft()
    ensures Left([]) == [] && LeftAll([]) == []
  {
  }

  function Total(segments: seq<seq<Byte>>): nat {
    if segments == [] then 0 else |segments[0]| + Total(segments[1..])
  }

  lemma {:induction false} TotalLeft(segments: seq<seq<Byte>>)
    ensures Total(segments) == |Left(segments)|
  {
    if segments != [] { TotalLeft(segments[1..]); }
  }

  /** The header announces the sum of the segment lengths. */
  function HeaderOf(tag: Byte, segments: seq<seq<Byte>>): (h: seq<Byte>)
    requires |Left(segments)| < WORDS
    ensures h == Header(Msg(tag, Left(segments)))
  {
    TotalLeft(segments);
    SizedHeader(tag, Total(segments))
  }

  lemma NothingPending(was: seq<Byte>, sent: seq<Byte>, rest: seq<seq<Byte>>, w: seq<Byte>)
    requires was + w == sent + Left(rest)
    ensures was + ([] + []) + w == sent + (Left(rest) + [])
    ensures rest == [] ==> was + ([] + []) + w == sent + ([] + [])
    ensures LeftAll([]) == []
  {
    assert was + ([] + []) == was && Left(rest) + [] == Left(rest);
  }

  lemma Regroup(sent: seq<Byte>, a: seq<Byte>, b: seq<Byte>, w: seq<Byte>)
    ensures sent + (a + b) + w == sent + (a + (b + w))
  {
  }

  lemma Replace(was: seq<Byte>, a: seq<Byte>, sent: seq<Byte>, b: seq<Byte>, left: seq<Byte>)
    requires was + a == sent + b
    ensures was + (a + left) == sent + (b + left)
  {
    assert was + (a + left) == (was + a) + left;
    assert sent + (b + left) == (sent + b) + left;
  }

  lemma SegmentsLeft(m: Msg, segments: seq<seq<Byte>>)
    requires Sendable(m) && m.payload == Left(segments) && ShortButLast(segments)
    ensures Left([Header(m)] + segments) == Wire(m) && ShortButLast([Header(m)] + segments)
    ensures |m.payload| <= INT_MAX ==> Short([Header(m)] + segments)
  {
    assert ([Header(m)] + segments)[1..] == segments;
    if |m.payload| <= INT_MAX { ShortParts(segments); }
  }

  lemma CountedSnoc(ms: seq<Msg>, m: Msg)
    ensures Counted(ms + [m]) <==> Counted(ms) && |m.payload| <= INT_MAX
  {
    assert forall i :: 0 <= i < |ms| ==> (ms + [m])[i] == ms[i];
    assert (ms + [m])[|ms|] == m;
  }

  // ---------------------------------------------------------------- receiving

  function Sum(lens: seq<int>): int { if lens == [] then 0 else lens[0] + Sum(lens[1..]) }

  /** Lengths that an int can say. */
  predicate Ints(lens: seq<int>) { forall i :: 0 <= i < |lens| ==> 0 <= lens[i] <= INT_MAX }

  /** The lengths that are left after cnt bytes were read, and how many of the bytes go to the cache. */
  method AdvanceRecv(lens: seq<int>, cnt: int) returns (rest: seq<int>, cached: int)
    ensures |lens| - |rest| == Passed(lens, cnt)
    ensures Ints(lens) && 0 <= cnt <= INT_MAX ==>
              && Sum(rest) - cached == Sum(lens) - cnt && cached >= 0 && (rest == [] || cached == 0)
              && (rest == [] <==> cnt >= Sum(lens))
  {
    hide Int;
    rest, cached := lens, cnt;
    for i := 0 to |lens|
      invariant |rest| == |lens| - i && Passed(lens, cnt) == i + Passed(rest, cached)
      invariant Ints(lens) && 0 <= cnt <= INT_MAX ==>
          Ints(rest) && 0 <= cached <= cnt && Sum(rest) - cached == Sum(lens) - cnt
    {
      if Ints(rest) && 0 <= cached <= INT_MAX {
        IntIs(rest[0]);
        if cached >= rest[0] { IntIs(cached - rest[0]); }
      }
      if cached < Int(rest[0]) {
        SumPositive(rest[1..]);
        ghost var was := rest;
        rest, cached := rest[0 := rest[0] - cached], 0;
        assert rest[1..] == was[1..];
        return;
      }
      rest, cached := rest[1..], Int(cached - rest[0]);
    }
  }

  lemma {:induction false} SumPositive(lens: seq<int>)
    ensures Ints(lens) ==> Sum(lens) >= 0
  {
    if lens != [] { SumPositive(lens[1..]); }
  }

  /** The payload counts as complete at one of the got, with so many bytes of it missing before them. */
  predicate Completes(left: int, got: seq<nat>)
    decreases |got|
  {
    got != [] && (Passed([left], got[0]) == 1 || Completes(left - got[0], got[1..]))
  }

  /** What readv and the cache can give. */
  predicate Given(got: seq<nat>) { forall i :: 0 <= i < |got| ==> 0 < got[i] <= INT_MAX }

  function SumReads(got: seq<nat>): nat { if got == [] then 0 else got[0] + SumReads(got[1..]) }

  lemma PassedOne(left: int, n: nat)
    ensures Passed([left], n) == 1 <==> n >= Int(left)
  {
    hide Int;
    assert [left][1..] == [] && Passed([], Int(n - left)) == 0;
  }

  lemma {:induction false} ReadsExact(left: nat, got: seq<nat>)
    requires 0 < left <= INT_MAX && Given(got)
    ensures Completes(left, got) <==> SumReads(got) >= left
  {
    hide Int;
    if got != [] {
      PassedOne(left, got[0]);
      IntIs(left);
      if got[0] < left { ReadsExact(left - got[0], got[1..]); }
    }
  }

  /** After a header that announces len bytes, the payload is taken for complete exactly when it is, for every sequence
      of got, if and only if it is not longer than an int can say. */
  lemma ReadExact(len: nat)
    requires 0 < len < WORDS
    ensures (forall got: seq<nat> :: Given(got) ==> (Completes(len, got) <==> SumReads(got) >= len))
       <==> len <= INT_MAX
  {
    if len <= INT_MAX {
      forall got: seq<nat> | Given(got) ensures Completes(len, got) <==> SumReads(got) >= len {
        ReadsExact(len, got);
      }
    } else {
      ReadTooLong(len, [1]);
      assert [1][1..] == [] && SumReads([1]) == 1;
    }
  }

  /** From 2147483648 bytes on, the payload is taken for complete at the first read. */
  lemma ReadTooLong(len: nat, got: seq<nat>)
    requires INT_MAX < len < WORDS && got != [] && Given(got)
    ensures Passed([len], got[0]) == 1 && Completes(len, got) && got[0] < len
  {
    PassedOne(len, got[0]);
    IntIs(len);
  }

  /** A fragment being received: its header and payload so far, which of the two is being read, and how
      much of that is missing. */
  datatype Incoming = Incoming(hdr: seq<Byte>, payload: seq<Byte>, idx: nat, left: nat)

  /** MCA_BTL_TCP_FRAG_INIT_DST. */
  const FRESH := Incoming([], [], 0, HDR_SIZE)

  /** The bytes of the stream that a fragment has taken. */
  function Taken(f: Incoming): seq<Byte> { f.hdr + f.payload }

  ghost predicate Partial(f: Incoming) {
    && f.idx <= 1 && f.left > 0
    && (f.idx == 0 ==> f.payload == [] && |f.hdr| + f.left == HDR_SIZE)
    && (f.idx == 1 ==> |f.hdr| == HDR_SIZE && |f.payload| + f.left == SizeIn(f.hdr))
  }

  /** Something of the header, or then of the payload, is there. */
  predicate Begun(f: Incoming) { if f.idx == 0 then f.hdr != [] else f.payload != [] }

  /** The calls from k on asked for something, with all of the given bytes there to be read. */
  ghost predicate Asked(calls: seq<Call>, k: nat, end: nat) {
    forall i :: k <= i < |calls| ==> calls[i].asked > 0 && calls[i].at + calls[i].there == end
  }

  lemma AskedOn(calls: seq<Call>, k: nat, more: seq<Call>, end: nat)
    requires k <= |calls| && calls <= more && Asked(calls, k, end) && Asked(more, |calls|, end)
    ensures Asked(more, k, end)
  {
    assert forall i :: 0 <= i < |calls| ==> more[i] == calls[i];
  }

  /** The payload announced fits into a receive fragment of the given size. */
  ghost predicate Room(f: Incoming, size: nat) { f.idx == 1 ==> |f.hdr| == HDR_SIZE && SizeIn(f.hdr) <= size }

  /** No payload is larger than a receive fragment. */
  ghost predicate Fits(ms: seq<Msg>, size: nat) { forall i :: 0 <= i < |ms| ==> |ms[i].payload| <= size }

  /** Bytes added to what is being read. */
  function Fill(f: Incoming, data: seq<Byte>): Incoming
    requires |data| <= f.left
  {
    if f.idx == 0 then f.(hdr := f.hdr + data, left := f.left - |data|)
    else f.(payload := f.payload + data, left := f.left - |data|)
  }

  lemma FillTaken(f: Incoming, data: seq<Byte>)
    requires |data| <= f.left && Partial(f)
    ensures Taken(Fill(f, data)) == Taken(f) + data
  {
    if f.idx == 0 { assert f.hdr + data + [] == f.hdr + [] + data; }
  }

  lemma SendableParts(a: seq<Msg>, b: seq<Msg>)
    requires AllSendable(a + b)
    ensures AllSendable(a) && AllSendable(b)
  {
    assert forall i :: 0 <= i < |a| ==> (a + b)[i] == a[i];
    assert forall i :: 0 <= i < |b| ==> (a + b)[|a| + i] == b[i];
  }

  lemma NoStream()
    ensures AllSendable([]) && Stream([]) == []
  {
  }

  lemma StreamFirst(ms: seq<Msg>)
    requires AllSendable(ms) && ms != []
    ensures Sendable(ms[0]) && AllSendable(ms[1..]) && Stream(ms) == Wire(ms[0]) + Stream(ms[1..])
  {
  }

  lemma {:induction false} StreamAppend(a: seq<Msg>, b: seq<Msg>)
    requires AllSendable(a + b)
    ensures AllSendable(a) && AllSendable(b) && Stream(a + b) == Stream(a) + Stream(b)
    decreases |a|
  {
    hide Wire, AllSendable, Stream;
    SendableParts(a, b);
    if a == [] {
      assert a + b == b;
      NoStream();
      assert [] + Stream(b) == Stream(b);
    } else {
      assert (a + b)[1..] == a[1..] + b && (a + b)[0] == a[0];
      StreamFirst(a + b);
      StreamFirst(a);
      StreamAppend(a[1..], b);
      assert Wire(a[0]) + (Stream(a[1..]) + Stream(b)) == Wire(a[0]) + Stream(a[1..]) + Stream(b);
    }
  }

  /** What was read, given that it is a prefix of the stream of the source messages: the delivered ones,
      what the current fragment has taken, and the cache. */
  ghost predicate Matches(source: seq<Msg>, delivered: seq<Msg>, f: Incoming, cache: seq<Byte>, read: seq<Byte>) {
    && AllSendable(source) && delivered <= source && AllSendable(delivered) && read <= Stream(source)
    && read == Stream(delivered) + Taken(f) + cache
  }

  /** A header that is there is the header of the next message. */
  lemma NextHeader(source: seq<Msg>, delivered: seq<Msg>, f: Incoming, cache: seq<Byte>, read: seq<Byte>)
    requires Matches(source, delivered, f, cache, read) && |f.hdr| == HDR_SIZE
    ensures |delivered| < |source| && f.hdr == Header(source[|delivered|])
    ensures SizeIn(f.hdr) == |source[|delivered|].payload|
    ensures Taken(f) + cache <= Wire(source[|delivered|]) + Stream(source[|delivered| + 1..])
  {
    hide Stream, Header, SizeIn, AllSendable;
    var k := |delivered|;
    var d, rest := Stream(delivered), source[k..];
    assert source == delivered + rest;
    StreamAppend(delivered, rest);
    Cancel(d, Taken(f) + cache, Stream(rest), read, Stream(source));
    NoStream();
    assert rest != [];
    StreamFirst(rest);
    assert rest[0] == source[k] && rest[1..] == source[k + 1..];
    HeaderFirst(source[k], Stream(rest[1..]), f, cache);
    HeaderRoundTrip(source[k]);
  }

  lemma HeaderFirst(m: Msg, more: seq<Byte>, f: Incoming, cache: seq<Byte>)
    requires Sendable(m) && |f.hdr| == HDR_SIZE && Taken(f) + cache <= Wire(m) + more
    ensures f.hdr == Header(m)
  {
    hide Header;
    assert (Wire(m) + more)[..HDR_SIZE] == Header(m);
    assert (Taken(f) + cache)[..HDR_SIZE] == f.hdr;
  }

  lemma Cancel(d: seq<Byte>, a: seq<Byte>, b: seq<Byte>, read: seq<Byte>, all: seq<Byte>)
    requires read <= all && all == d + b && |read| == |d| + |a| && (read == d + a || read[|d|..] == a)
    ensures a <= b
  {
    assert forall i :: 0 <= i < |a| ==> a[i] == read[|d| + i] == all[|d| + i] == b[i];
  }

  /** A complete fragment is the next message. */
  lemma NextMessage(source: seq<Msg>, delivered: seq<Msg>, f: Incoming, cache: seq<Byte>, read: seq<Byte>)
    requires Matches(source, delivered, f, cache, read) && |f.hdr| == HDR_SIZE && |f.payload| == SizeIn(f.hdr)
    ensures |delivered| < |source| && Msg(f.hdr[0], f.payload) == source[|delivered|]
    ensures Matches(source, delivered + [source[|delivered|]], FRESH, cache, read)
    ensures |Stream(delivered + [source[|delivered|]])| > |Stream(delivered)|
  {
    hide Stream, Header, SizeIn;
    NextHeader(source, delivered, f, cache, read);
    var m := source[|delivered|];
    HeaderRoundTrip(m);
    SamePayload(f, m, cache, Stream(source[|delivered| + 1..]));
    StreamSnoc(delivered, m);
    assert Taken(FRESH) == [];
    assert Stream(delivered) + Wire(m) + cache == Stream(delivered) + Wire(m) + [] + cache;
    assert delivered + [m] == source[..|delivered| + 1];
  }

  lemma SamePayload(f: Incoming, m: Msg, cache: seq<Byte>, rest: seq<Byte>)
    requires Sendable(m) && f.hdr == Header(m) && |f.payload| == |m.payload| && Taken(f) + cache <= Wire(m) + rest
    ensures f.payload == m.payload && Taken(f) == Wire(m)
  {
    hide Header;
    var x, y := Taken(f) + cache, Wire(m) + rest;
    assert forall i :: 0 <= i < |f.payload| ==> f.payload[i] == x[HDR_SIZE + i] == y[HDR_SIZE + i] == m.payload[i];
  }

  lemma FreshPartial()
    ensures Partial(FRESH)
  {
  }

  class Receiver {
    const sock: Socket
    const capacity: nat
    const fragSize: nat
    var cache: seq<Byte>
    var frag: Option<Incoming>
    var delivered: seq<Msg>

    /** What the endpoint has read agrees with the source messages. */
    ghost predicate Agrees(source: seq<Msg>, f: Incoming)
      reads this, sock
    {
      sock.Valid() && |cache| <= INT_MAX && Matches(source, delivered, f, cache, sock.sent[..sock.read])
    }

    /** Between events: the read-ahead cache is empty. */
    ghost predicate Valid(source: seq<Msg>)
      reads this, sock
    {
      && cache == [] && (frag.Some? ==> Partial(frag.value) && Room(frag.value, fragSize))
      && fragSize <= INT_MAX && Fits(source, fragSize)
      && Agrees(source, if frag.Some? then frag.value else FRESH)
    }

    constructor (s: Socket, capacity: nat, fragSize: nat)
      requires s.Valid() && s.sent == [] && fragSize <= INT_MAX
      ensures sock == s && Valid([]) && delivered == [] && this.fragSize == fragSize
    {
      sock, cache, frag, delivered := s, [], None, [];
      this.capacity, this.fragSize := capacity, fragSize;
    }

    /** One pass of mca_btl_tcp2_frag_recv: takes bytes from the cache, or from the socket with whatever
        lies behind them going to the cache. */
    method Take(f: Incoming, ghost source: seq<Msg>) returns (g: Incoming, blocked: bool)
      requires Partial(f) && Agrees(source, f) && sock.sent <= Stream(source) && f.left <= INT_MAX
      modifies this`cache, sock`read, sock`readings
      ensures Agrees(source, g) && (blocked ==> g == f && cache == [])
      ensures !blocked ==> g.idx == f.idx && g.left <= f.left && (g.left > 0 ==> cache == [] && Partial(g))
      ensures !blocked && g.left == 0 ==> |g.hdr| == HDR_SIZE && |g.payload| == if f.idx == 0 then 0 else SizeIn(g.hdr)
      ensures !blocked && f.idx == 1 ==> g.hdr == f.hdr
      ensures !blocked ==> |Taken(g)| > |Taken(f)| && Begun(g)
      ensures sock.readings == if old(cache) != [] then old(sock.readings)
                               else old(sock.readings) + [Call(old(sock.read), f.left + capacity,
                                   |sock.sent| - old(sock.read), sock.read - old(sock.read))]
      ensures blocked ==> old(cache) == [] && sock.read == old(sock.read)
    {
      hide Stream, Matches, Passed, Int, Sum, SizeIn, Chained, Partial, Fill, Taken, Begun;
      PartialLeft(f);
      blocked := false;
      ghost var was := sock.sent[..sock.read];
      var had := cache;
      if had == [] {
        had := sock.Readv(f.left + capacity);
        if had == [] { return f, true; }
        assert sock.sent[..sock.read] == was + had;
        ReadMatches(source, delivered, f, was, had);
      }
      var lens, cached := AdvanceRecv([f.left], |had|);
      SumOne(f.left);
      SumNone(lens);
      var length := |had| - cached;
      var data, rest := had[..length], had[length..];
      g := Fill(f, data);
      TakeMatches(source, delivered, f, had, sock.sent[..sock.read], data, rest);
      FillParts(f, data);
      cache := rest;
    }

    /** mca_btl_tcp2_frag_recv: the header, then the payload it announces. */
    method FragRecv(f: Incoming, ghost source: seq<Msg>) returns (g: Incoming, done: bool)
      requires Partial(f) && Agrees(source, f) && sock.sent <= Stream(source)
      requires Room(f, fragSize) && Fits(source, fragSize) && fragSize <= INT_MAX
      modifies this`cache, sock`read, sock`readings
      ensures Agrees(source, g) && Room(g, fragSize)
      ensures !done ==> Partial(g) && cache == []
      ensures done ==> |g.hdr| == HDR_SIZE && |g.payload| == SizeIn(g.hdr) <= fragSize
      // It reads if nothing is cached, and stops short only if the socket gives nothing or not enough.
      ensures old(sock.readings) <= sock.readings && Asked(sock.readings, |old(sock.readings)|, |sock.sent|)
      ensures old(cache) == [] ==> |old(sock.readings)| < |sock.readings|
      ensures !done ==> Begun(g) || Refused(sock.readings, |old(sock.readings)|)
    {
      hide Stream, Header, Chained;
      var blocked;
      g, blocked := Take(f, source);
      if blocked || g.left > 0 { return g, false; }
      if g.idx == 0 {
        NextHeader(source, delivered, g, cache, sock.sent[..sock.read]);
        SendType(source[|delivered|]);
        if g.hdr[1] == HDR_TYPE_SEND && SizeIn(g.hdr) > 0 {
          g := g.(idx := 1, left := SizeIn(g.hdr));
          g, blocked := Take(g, source);
          if blocked || g.left > 0 { return g, false; }
        }
      }
      done := true;
    }

    /** mca_btl_tcp2_endpoint_recv_handler on a connected endpoint: delivers every message that is complete. */
    method RecvHandler(ghost source: seq<Msg>)
      requires Valid(source) && sock.sent <= Stream(source)
      modifies this, sock`read, sock`readings
      ensures Valid(source) && old(delivered) <= delivered
      // It reads, and stops short only if the socket gives nothing or not enough.
      ensures old(sock.readings) < sock.readings && Asked(sock.readings, |old(sock.readings)|, |sock.sent|)
      ensures frag.Some? ==> Begun(frag.value) || Refused(sock.readings, |old(sock.readings)|)
    {
      hide Stream, Header, SizeIn, Chained, Asked;
      FreshPartial();
      NoneAsked(sock.readings, |sock.sent|);
      var f := if frag.Some? then frag.value else FRESH;
      while true
        invariant Partial(f) && Agrees(source, f) && sock.sent <= Stream(source) && old(delivered) <= delivered
        invariant Room(f, fragSize) && old(sock.readings) <= sock.readings
        invariant Asked(sock.readings, |old(sock.readings)|, |sock.sent|)
        invariant cache == [] ==> sock.readings == old(sock.readings)
        invariant cache != [] ==> |old(sock.readings)| < |sock.readings|
        modifies this, sock`read, sock`readings
        decreases |sock.sent| - |Stream(delivered)|
      {
        var done;
        ghost var before := sock.readings;
        f, done := FragRecv(f, source);
        AskedOn(before, |old(sock.readings)|, sock.readings, |sock.sent|);
        if !done {
          frag := Some(f);
          return;
        }
        NextMessage(source, delivered, f, cache, sock.sent[..sock.read]);
        frag := None;
        delivered := delivered + [Msg(f.hdr[0], f.payload)];
        f := FRESH;
        if cache == [] { return; }
      }
    }
  }

  /** The last call is one of those from k on, and it moved nothing. */
  ghost predicate Refused(calls: seq<Call>, k: nat) { k < |calls| && calls[|calls| - 1].n == 0 }

  lemma NoneAsked(calls: seq<Call>, end: nat)
    ensures Asked(calls, |calls|, end)
  {
  }

  lemma SumOne(n: int)
    ensures Sum([n]) == n
  {
    assert [n][1..] == [];
  }

  lemma SumNone(lens: seq<int>)
    ensures lens == [] ==> Sum(lens) == 0
  {
  }

  lemma FillParts(f: Incoming, data: seq<Byte>)
    requires Partial(f) && 0 < |data| <= f.left
    ensures var g := Fill(f, data);
      && g.idx == f.idx && g.left == f.left - |data| && (g.left > 0 ==> Partial(g)) && (f.idx == 1 ==> g.hdr == f.hdr)
      && (g.left == 0 ==> |g.hdr| == HDR_SIZE && |g.payload| == if f.idx == 0 then 0 else SizeIn(g.hdr))
      && |Taken(g)| > |Taken(f)| && Begun(g)
  {
    hide SizeIn;
  }

  lemma PartialLeft(f: Incoming)
    requires Partial(f)
    ensures f.left > 0
  {
  }

  /** Bytes read go to the cache, */
  lemma ReadMatches(source: seq<Msg>, delivered: seq<Msg>, f: Incoming, was: seq<Byte>, had: seq<Byte>)
    requires Matches(source, delivered, f, [], was) && was + had <= Stream(source)
    ensures Matches(source, delivered, f, had, was + had)
  {
    hide Stream;
    assert Stream(delivered) + Taken(f) + [] == Stream(delivered) + Taken(f);
  }

  /** and from there to the fragment. */
  lemma TakeMatches(source: seq<Msg>, delivered: seq<Msg>, f: Incoming, had: seq<Byte>, read: seq<Byte>,
          data: seq<Byte>, rest: seq<Byte>)
    requires Matches(source, delivered, f, had, read) && had == data + rest && |data| <= f.left && Partial(f)
    ensures Matches(source, delivered, Fill(f, data), rest, read)
  {
    hide Stream, Partial;
    FillTaken(f, data);
    assert Stream(delivered) + Taken(f) + (data + rest) == Stream(delivered) + (Taken(f) + data) + rest;
  }

  lemma SendType(m: Msg)
    requires Sendable(m)
    ensures Header(m)[1] == HDR_TYPE_SEND
  {
  }

  // ---------------------------------------------------------------- whole runs

  datatype Event = Submit(tag: Byte, segments: seq<seq<Byte>>, priority: bool) | Connects | Writable | Readable

  /** The messages submitted, in order. */
  function Messages(events: seq<Event>): seq<Msg> {
    if events == [] then []
    else
      var last := events[|events| - 1];
      Messages(events[..|events| - 1]) + if last.Submit? then [Msg(last.tag, Left(last.segments))] else []
  }

  /** Once everything was written and read, everything was delivered. */
  lemma Quiescent(source: seq<Msg>, delivered: seq<Msg>, f: Incoming, read: seq<Byte>)
    requires Matches(source, delivered, f, [], read) && read == Stream(source) && (f == FRESH || Partial(f))
    ensures delivered == source
  {
    if delivered != source {
      var k := |delivered|;
      var rest := source[k..];
      assert source == delivered + rest;
      StreamAppend(delivered, rest);
      assert |Taken(f)| == |Stream(rest)|;
      assert |Stream(rest)| == |Wire(rest[0])| + |Stream(rest[1..])| && |Wire(rest[0])| >= HDR_SIZE;
      if f.idx == 1 {
        NextHeader(source, delivered, f, [], read);
      }
    }
  }

  lemma SourceGrows(source: seq<Msg>, m: Msg, delivered: seq<Msg>, f: Incoming, cache: seq<Byte>, read: seq<Byte>)
    requires Matches(source, delivered, f, cache, read) && Sendable(m)
    ensures Matches(source + [m], delivered, f, cache, read)
  {
    hide Stream;
    StreamSnoc(source, m);
  }

  /** Any sequence of submissions, before and after the endpoint is connected, and of socket events, with the socket
      splitting the bytes in any way: what was delivered is a prefix of what was submitted, and all of it once the
      connection is idle. */
  method Run(events: seq<Event>, capacity: nat, fragSize: nat) returns (s: Sender, r: Receiver)
    requires fragSize <= INT_MAX
    requires forall i :: 0 <= i < |events| && events[i].Submit? ==> |Left(events[i].segments)| <= fragSize
    ensures s.submitted == Messages(events) && r.delivered <= s.submitted && r.cache == [] && r.sock == s.sock
    ensures s.connected <==> exists i :: 0 <= i < |events| && events[i].Connects?
    ensures s.connected && s.current == None && r.sock.read == |r.sock.sent| ==> r.delivered == s.submitted
  {
    hide Stream, Left, Sender.Valid, Receiver.Valid;
    var sock := new Socket();
    s := new Sender(sock);
    r := new Receiver(sock, capacity, fragSize);
    for i := 0 to |events|
      invariant s.sock == sock && r.sock == sock && fresh(s) && fresh(r) && fresh(sock) && r.fragSize == fragSize
      invariant s.Valid() && r.Valid(s.submitted) && s.submitted == Messages(events[..i])
      invariant s.connected <==> exists k :: 0 <= k < i && events[k].Connects?
    {
      Step(s, r, events[i]);
      assert events[..i + 1][..i] == events[..i];
    }
    assert events[..|events|] == events;
    Delivers(s, r);
  }

  lemma Delivers(s: Sender, r: Receiver)
    requires s.sock == r.sock && s.Valid() && r.Valid(s.submitted)
    ensures r.delivered <= s.submitted && r.cache == []
    ensures s.connected && s.current == None && r.sock.read == |r.sock.sent| ==> r.delivered == s.submitted
  {
    hide Stream, Left, Partial, Room;
    if s.connected && s.current == None && r.sock.read == |r.sock.sent| {
      Drained(s);
      assert r.sock.sent[..r.sock.read] == r.sock.sent;
      Quiescent(s.submitted, r.delivered, if r.frag.Some? then r.frag.value else FRESH, r.sock.sent);
    }
  }

  method Step(s: Sender, r: Receiver, e: Event)
    requires s.sock == r.sock && s.Valid() && r.Valid(s.submitted)
    requires e.Submit? ==> |Left(e.segments)| <= r.fragSize
    modifies s, r, s.sock
    ensures s.Valid() && r.Valid(s.submitted) && s.connected == (old(s.connected) || e.Connects?)
    ensures s.submitted == old(s.submitted) + if e.Submit? then [Msg(e.tag, Left(e.segments))] else []
    ensures e.Writable? && old(s.current).Some? ==> |old(s.sock.writings)| < |s.sock.writings|
    ensures e.Readable? ==> |old(s.sock.readings)| < |s.sock.readings|
  {
    hide Stream, Matches, Left;
    ghost var was, read := s.submitted, s.sock.sent[..s.sock.read];
    match e
    case Submit(tag, segments, priority) =>
      ShortParts(segments);
      s.Send(tag, segments, priority);
      assert s.sock.sent[..s.sock.read] == read;
      SourceGrows(was, Msg(tag, Left(segments)), r.delivered, if r.frag.Some? then r.frag.value else FRESH, r.cache,
          read);
    case Connects =>
      s.Connected();
    case Writable =>
      s.SendHandler();
      assert s.sock.sent[..s.sock.read] == read;
    case Readable =>
      assert s.sock.sent <= Stream(s.submitted);
      r.RecvHandler(s.submitted);
  }

  lemma Drained(s: Sender)
    requires s.Valid() && s.connected && s.current == None && Counted(s.submitted)
    ensures s.sock.sent == Stream(s.submitted)
  {
    assert s.Pending() == [];
  }

  // ---------------------------------------------------------------- progress

  /** The first k messages lie wholly in the bytes that were sent. */
  ghost predicate Whole(source: seq<Msg>, k: nat, sent: seq<Byte>) {
    k <= |source| && AllSendable(source[..k]) && |Stream(source[..k])| <= |sent|
  }

  /** Once everything that was sent was read, every message that lies wholly in it was delivered. */
  lemma WholeDelivered(source: seq<Msg>, delivered: seq<Msg>, f: Incoming, read: seq<Byte>, k: nat)
    requires Matches(source, delivered, f, [], read) && (f == FRESH || Partial(f)) && Whole(source, k, read)
    ensures k <= |delivered|
  {
    hide Stream, Header, SizeIn;
    if k > |delivered| {
      var n := |delivered|;
      var a, b := source[..n], source[n..k];
      assert source[..k] == a + b && a == delivered;
      StreamAppend(a, b);
      StreamFirst(b);
      assert b[0] == source[n] && |Stream(b)| >= |Wire(b[0])|;
      assert |Taken(f)| >= |Wire(source[n])|;
      if |f.hdr| == HDR_SIZE { NextHeader(source, delivered, f, [], read); }
    }
  }

  /** A Readable event moves on if there is something to read and the socket gives something. */
  lemma ReadsOn(calls: seq<Call>, k: nat, was: nat, read: nat, end: nat)
    requires Chained(calls, read) && k < |calls| && calls[k].at == was && Asked(calls, k, end) && Willing(calls[k])
    ensures was <= read && (was < end ==> was < read)
  {
    Moved(calls, k, read);
  }

  /** Where the next call begins. */
  lemma ChainedAt(calls: seq<Call>, end: nat, more: seq<Call>, end': nat)
    requires Chained(calls, end) && Chained(more, end') && calls < more
    ensures more[|calls|].at == end
  {
    if calls != [] {
      var k := |calls| - 1;
      assert calls[k].at + calls[k].n == Next(calls, k, end);
      assert more[k].at + more[k].n == Next(more, k, end') && more[k] == calls[k];
    }
  }

  ghost function Minus(a: int, b: int): nat { if a > b then a - b else 0 }

  /** Readable events, as many as there are bytes to read, deliver every message that lies wholly in what was sent, if
      the socket never refuses bytes that are there. */
  method Drain(r: Receiver, ghost source: seq<Msg>, n: nat)
    requires r.Valid(source) && r.sock.sent <= Stream(source)
    modifies r, r.sock`read, r.sock`readings
    ensures r.Valid(source) && old(r.sock.readings) <= r.sock.readings && old(r.delivered) <= r.delivered
    ensures AllWilling(r.sock.readings, |old(r.sock.readings)|) && n >= |r.sock.sent| - old(r.sock.read) ==>
              && r.sock.read == |r.sock.sent|
              && forall k: nat :: Whole(source, k, r.sock.sent) ==> k <= |r.delivered|
  {
    hide Stream, Receiver.Valid, Chained, Asked, Whole, Willing;
    ghost var first := |r.sock.readings|;
    for i := 0 to n
      invariant r.Valid(source) && r.sock.sent == old(r.sock.sent) && old(r.delivered) <= r.delivered
      invariant old(r.sock.readings) <= r.sock.readings
      invariant AllWilling(r.sock.readings, first) ==>
                  |r.sock.sent| - r.sock.read <= Minus(|r.sock.sent| - old(r.sock.read), i)
    {
      ghost var was, calls := r.sock.read, r.sock.readings;
      ReceiverSocket(r, source);
      r.RecvHandler(source);
      ReceiverSocket(r, source);
      ChainedAt(calls, was, r.sock.readings, r.sock.read);
      if AllWilling(r.sock.readings, first) {
        WillingFrom(calls, r.sock.readings, first);
        ReadsOn(r.sock.readings, |calls|, was, r.sock.read, |r.sock.sent|);
      }
    }
    ReceiverSocket(r, source);
    if r.sock.read == |r.sock.sent| {
      forall k: nat | Whole(source, k, r.sock.sent) ensures k <= |r.delivered| { AllDelivered(r, source, k); }
    }
  }

  lemma ReceiverSocket(r: Receiver, source: seq<Msg>)
    requires r.Valid(source)
    ensures r.sock.Valid() && Chained(r.sock.readings, r.sock.read) && r.sock.read <= |r.sock.sent|
  {
  }

  lemma WillingFrom(calls: seq<Call>, more: seq<Call>, k: nat)
    requires k <= |calls| && calls < more && AllWilling(more, k)
    ensures AllWilling(calls, k) && Willing(more[|calls|])
  {
    hide Willing;
    assert forall i :: 0 <= i < |calls| ==> calls[i] == more[i];
  }

  lemma AllDelivered(r: Receiver, source: seq<Msg>, k: nat)
    requires r.Valid(source) && r.sock.read == |r.sock.sent| && Whole(source, k, r.sock.sent)
    ensures k <= |r.delivered|
  {
    hide Stream, Room, Fits, Whole;
    assert r.sock.sent[..r.sock.read] == r.sock.sent;
    WholeDelivered(source, r.delivered, if r.frag.Some? then r.frag.value else FRESH, r.sock.sent, k);
  }

  /** Writable events, as many as there are bytes to write, write all of them, if the socket never refuses to take
      any. */
  method Flush(s: Sender, n: nat)
    requires s.Valid() && s.connected && Counted(s.submitted)
    modifies s, s.sock`sent, s.sock`writings
    ensures s.Valid() && s.connected && s.submitted == old(s.submitted) && old(s.sock.sent) <= s.sock.sent
    ensures old(s.sock.writings) <= s.sock.writings
    ensures AllWilling(s.sock.writings, |old(s.sock.writings)|) && n > |Stream(s.submitted)| ==>
              s.current == None && s.sock.sent == Stream(s.submitted)
  {
    hide Stream, Sender.Valid, Chained, AllWilling, Counted, AllSendable;
    SenderSocket(s);
    ghost var first := |s.sock.writings|;
    for i := 0 to n
      invariant s.Valid() && s.connected && s.submitted == old(s.submitted) && old(s.sock.sent) <= s.sock.sent
      invariant AllSendable(s.submitted) && old(s.sock.writings) <= s.sock.writings
      invariant AllWilling(s.sock.writings, first) ==> s.current == None || |s.sock.sent| >= i
    {
      ghost var was, calls := |s.sock.sent|, s.sock.writings;
      SenderSocket(s);
      s.SendHandler();
      SenderSocket(s);
      if AllWilling(s.sock.writings, first) && s.current.Some? {
        WillingFrom(calls, s.sock.writings, first);
        WritesOn(calls, was, s.sock.writings, |s.sock.sent|, first);
      }
    }
    SenderSocket(s);
  }

  lemma {:induction false} ChainedOrder(calls: seq<Call>, i: nat, j: nat, end: nat)
    requires Chained(calls, end) && i <= j < |calls|
    ensures calls[i].at <= calls[j].at
    decreases j - i
  {
    hide Chained;
    if i < j {
      ChainedNext(calls, i, end);
      ChainedOrder(calls, i + 1, j, end);
    }
  }

  lemma ChainedNext(calls: seq<Call>, i: nat, end: nat)
    requires Chained(calls, end) && i + 1 < |calls|
    ensures calls[i].at + calls[i].n == calls[i + 1].at
  {
    assert calls[i].at + calls[i].n == Next(calls, i, end);
  }

  /** A Writable event moves on if it ends with a short write of a socket that takes something. */
  lemma WritesOn(calls: seq<Call>, was: nat, more: seq<Call>, sent: nat, k: nat)
    requires Chained(calls, was) && Chained(more, sent) && calls < more && k <= |calls| && AllWilling(more, k)
    requires more[|more| - 1].n < more[|more| - 1].asked == more[|more| - 1].there
    ensures was < sent
  {
    hide Chained;
    ChainedAt(calls, was, more, sent);
    ChainedOrder(more, |calls|, |more| - 1, sent);
    ChainedEnd(more, sent);
  }

  lemma ChainedEnd(calls: seq<Call>, end: nat)
    requires Chained(calls, end) && calls != []
    ensures calls[|calls| - 1].at + calls[|calls| - 1].n == end
  {
    assert calls[|calls| - 1].at + calls[|calls| - 1].n == Next(calls, |calls| - 1, end);
  }

  lemma SenderSocket(s: Sender)
    requires s.Valid()
    ensures s.sock.Valid() && Chained(s.sock.writings, |s.sock.sent|) && AllSendable(s.submitted)
    ensures Counted(s.submitted) ==> Stream(s.submitted) == s.sock.sent + s.Pending()
    ensures s.current == None && s.connected ==> s.Pending() == []
  {
  }

  /** From wherever a run has left a connected endpoint and its peer: enough Writable and then Readable events deliver
      everything submitted, if the socket always moves something when it can. */
  method Settle(s: Sender, r: Receiver, writes: nat, readings: nat)
    requires s.sock == r.sock && s.Valid() && r.Valid(s.submitted) && s.connected
    modifies s, r, s.sock
    ensures s.Valid() && r.Valid(s.submitted) && s.submitted == old(s.submitted)
    ensures old(s.sock.writings) <= s.sock.writings && old(s.sock.readings) <= s.sock.readings
    ensures (&& writes > |Stream(s.submitted)| && readings >= |Stream(s.submitted)|
             && AllWilling(s.sock.writings, |old(s.sock.writings)|)
             && AllWilling(s.sock.readings, |old(s.sock.readings)|)) ==> r.delivered == s.submitted
  {
    hide Stream, Matches, Partial, Room, Fits, Chained, AllWilling, AllSendable, Counted, LeftAll, Left;
    SenderSocket(s);
    ReceiverCounts(r, s.submitted);
    ghost var read := s.sock.sent[..s.sock.read];
    Flush(s, writes);
    assert s.sock.sent[..s.sock.read] == read;
    SenderSocket(s);
    Drain(r, s.submitted, readings);
    Delivers(s, r);
  }

  lemma ReceiverCounts(r: Receiver, source: seq<Msg>)
    requires r.Valid(source)
    ensures Counted(source)
  {
  }
}
