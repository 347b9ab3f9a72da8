/** Parameters across the two worlds: the encode context of otz_client_main.c on the client's side,
    decode_data and update_response_len of task_control.c on the secure side. */
module Marshal {

  type Byte = n: nat | n < 256

  const MAX_REQ: nat := 12
  const MAX_RES: nat := 4
  const BUFFER: nat := 1024
  const W: nat := 0x1_0000_0000

  datatype Kind = Invalid | Uint32 | Array

  /** struct otzc_encode_meta, without user addresses; the lengths are signed words. */
  datatype Meta = Meta(kind: Kind, len: int, retLen: int)

  /** A number as a signed word. */
  function AsInt(x: int): int {
    if x % W < W / 2 then x % W else x % W - W
  }

  /** A request parameter, and what is declared of a response parameter. */
  datatype Param = Param(kind: Kind, data: seq<Byte>)
  datatype Slot = Slot(kind: Kind, len: nat)

  predicate ProperSlot(s: Slot) {
    s.kind == Array || (s.kind == Uint32 && s.len == 4)
  }

  function SlotOf(p: Param): Slot { Slot(p.kind, |p.data|) }

  lemma AsIntIs(x: int)
    ensures -(W / 2) <= AsInt(x) < W / 2 && (AsInt(x) - x) % W == 0
  {
  }

  lemma SmallInt(x: int)
    requires 0 <= x <= BUFFER
    ensures AsInt(x) == x
  {
  }

  // ---- where the parameters lie ----

  /** The offset of parameter k: the sum of the lengths before it. */
  function Offset(slots: seq<Slot>, k: nat): nat
    requires k <= |slots|
  {
    if k == 0 then 0 else Offset(slots, k - 1) + slots[k - 1].len
  }

  function Slots(ps: seq<Param>): (r: seq<Slot>)
    ensures |r| == |ps| && forall i :: 0 <= i < |ps| ==> r[i] == SlotOf(ps[i])
  {
    seq(|ps|, i requires 0 <= i < |ps| => SlotOf(ps[i]))
  }

  /** The bytes of the parameters, one after the other. */
  function Flat(ps: seq<Param>): seq<Byte> {
    if ps == [] then [] else Flat(ps[..|ps| - 1]) + ps[|ps| - 1].data
  }

  lemma {:induction false} OffsetMonotonic(slots: seq<Slot>, j: nat, k: nat)
    requires j <= k <= |slots|
    ensures Offset(slots, j) <= Offset(slots, k)
    decreases k
  {
    if j < k {
      OffsetMonotonic(slots, j, k - 1);
    }
  }

  lemma {:induction false} OffsetPrefix(slots: seq<Slot>, more: seq<Slot>, k: nat)
    requires k <= |slots|
    ensures Offset(slots + more, k) == Offset(slots, k)
  {
    if k > 0 {
      OffsetPrefix(slots, more, k - 1);
    }
  }

  lemma SlotsFront(ps: seq<Param>, n: nat)
    requires n + 1 == |ps|
    ensures Slots(ps) == Slots(ps[..n]) + [SlotOf(ps[n])]
    ensures forall k :: 0 <= k <= n ==> Offset(Slots(ps), k) == Offset(Slots(ps[..n]), k)
    ensures Offset(Slots(ps), n + 1) == Offset(Slots(ps), n) + |ps[n].data|
  {
    assert Slots(ps) == Slots(ps[..n]) + [SlotOf(ps[n])];
    hide Slots;
    forall k | 0 <= k <= n
      ensures Offset(Slots(ps), k) == Offset(Slots(ps[..n]), k)
    {
      OffsetPrefix(Slots(ps[..n]), [SlotOf(ps[n])], k);
    }
  }

  lemma {:induction false} FlatLength(ps: seq<Param>)
    ensures |Flat(ps)| == Offset(Slots(ps), |ps|)
  {
    if ps != [] {
      var n := |ps| - 1;
      FlatLength(ps[..n]);
      SlotsFront(ps, n);
    }
  }

  /** A parameter lies at its offset. */
  lemma {:induction false} FlatAt(ps: seq<Param>, k: nat)
    requires k < |ps|
    ensures |Flat(ps)| == Offset(Slots(ps), |ps|) && Offset(Slots(ps), k) + |ps[k].data| <= |Flat(ps)|
    ensures Flat(ps)[Offset(Slots(ps), k)..Offset(Slots(ps), k) + |ps[k].data|] == ps[k].data
  {
    var n := |ps| - 1;
    FlatLength(ps);
    FlatLength(ps[..n]);
    SlotsFront(ps, n);
    assert Flat(ps) == Flat(ps[..n]) + ps[n].data;
    hide Flat, Offset, Slots;
    if k < n {
      FlatAt(ps[..n], k);
    }
  }

  /** The metadata from position base describes the slots. */
  ghost predicate Describes(meta: seq<Meta>, base: nat, slots: seq<Slot>) {
    && base + |slots| <= |meta|
    && forall i :: 0 <= i < |slots| ==> meta[base + i].kind == slots[i].kind && meta[base + i].len == slots[i].len
  }

  /** Copies bytes into a buffer. */
  method Put(buffer: array<Byte>, offset: nat, data: seq<Byte>)
    requires offset + |data| <= buffer.Length
    modifies buffer
    ensures buffer[..] == old(buffer[..offset]) + data + old(buffer[offset + |data|..])
  {
    forall i | 0 <= i < |data| {
      buffer[offset + i] := data[i];
    }
  }

  // ---- the client's context ----

  /** param_type; any other value is accepted and does nothing. */
  datatype Direction = In | Out | Other

  /** The request half of a context holds exactly the accepted parameters. */
  ghost predicate Sent(req: seq<Byte>, meta: seq<Meta>, offset: nat, pos: nat, sent: seq<Param>) {
    && |req| == BUFFER && |meta| == MAX_REQ + MAX_RES
    && pos == |sent| <= MAX_REQ && offset == Offset(Slots(sent), |sent|) == |Flat(sent)| <= BUFFER
    && req[..offset] == Flat(sent) && Describes(meta, 0, Slots(sent))
    && forall i :: 0 <= i < |sent| ==> ProperSlot(SlotOf(sent[i]))
  }

  /** The response half describes exactly the declared parameters. */
  ghost predicate Declared(meta: seq<Meta>, offset: nat, pos: nat, slots: seq<Slot>) {
    && |meta| == MAX_REQ + MAX_RES
    && pos == MAX_REQ + |slots| <= MAX_REQ + MAX_RES && offset == Offset(slots, |slots|) <= BUFFER
    && Describes(meta, MAX_REQ, slots)
    && forall i :: 0 <= i < |slots| ==> ProperSlot(slots[i])
  }

  lemma SentMore(req: seq<Byte>, meta: seq<Meta>, offset: nat, pos: nat, sent: seq<Param>, p: Param,
      req': seq<Byte>, meta': seq<Meta>)
    requires Sent(req, meta, offset, pos, sent) && ProperSlot(SlotOf(p))
    requires offset + |p.data| <= BUFFER && pos < MAX_REQ
    requires req' == req[..offset] + p.data + req[offset + |p.data|..]
    requires meta' == meta[pos := Meta(p.kind, |p.data|, meta[pos].retLen)]
    ensures Sent(req', meta', offset + |p.data|, pos + 1, sent + [p])
  {
    assert (sent + [p])[..|sent|] == sent;
    assert Slots(sent + [p]) == Slots(sent) + [SlotOf(p)];
    OffsetPrefix(Slots(sent), [SlotOf(p)], |sent|);
    assert req'[..offset + |p.data|] == req[..offset] + p.data;
  }

  lemma DeclaredMore(meta: seq<Meta>, offset: nat, pos: nat, slots: seq<Slot>, s: Slot, meta': seq<Meta>)
    requires Declared(meta, offset, pos, slots) && ProperSlot(s)
    requires offset + s.len <= BUFFER && pos < MAX_REQ + MAX_RES
    requires meta' == meta[pos := Meta(s.kind, s.len, meta[pos].retLen)]
    ensures Declared(meta', offset + s.len, pos + 1, slots + [s])
  {
    OffsetPrefix(slots, [s], |slots|);
  }

  /** A declared parameter lies in the buffer, and the metadata has its length. */
  lemma DeclaredAt(meta: seq<Meta>, offset: nat, pos: nat, slots: seq<Slot>, k: nat)
    requires Declared(meta, offset, pos, slots) && k < |slots|
    ensures meta[MAX_REQ + k].kind == slots[k].kind && meta[MAX_REQ + k].len == slots[k].len && ProperSlot(slots[k])
    ensures Offset(slots, k) + slots[k].len == Offset(slots, k + 1) <= BUFFER
  {
    OffsetMonotonic(slots, k + 1, |slots|);
  }

  /** The halves do not disturb each other. */
  lemma SentStays(req: seq<Byte>, meta: seq<Meta>, offset: nat, pos: nat, sent: seq<Param>, i: nat, m: Meta)
    requires Sent(req, meta, offset, pos, sent) && MAX_REQ <= i < |meta|
    ensures Sent(req, meta[i := m], offset, pos, sent)
  {
  }

  lemma DeclaredStays(meta: seq<Meta>, offset: nat, pos: nat, slots: seq<Slot>, i: nat, m: Meta)
    requires Declared(meta, offset, pos, slots) && i < MAX_REQ
    ensures Declared(meta[i := m], offset, pos, slots)
  {
  }

  /** A negative length is none that was declared. */
  lemma NoneDeclared(meta: seq<Meta>, offset: nat, pos: nat)
    requires MAX_REQ < pos <= |meta| && meta[pos - 1].len < 0
    ensures forall slots :: !Declared(meta, offset, pos, slots)
  {
    forall slots: seq<Slot>
      ensures !Declared(meta, offset, pos, slots)
    {
      if Declared(meta, offset, pos, slots) {
        LastDeclared(meta, offset, pos, slots);
      }
    }
  }

  lemma LastDeclared(meta: seq<Meta>, offset: nat, pos: nat, slots: seq<Slot>)
    requires Declared(meta, offset, pos, slots) && MAX_REQ < pos
    ensures 0 <= meta[pos - 1].len && offset <= BUFFER
  {
    assert meta[MAX_REQ + (|slots| - 1)].len == slots[|slots| - 1].len;
  }

  /** struct otzc_encode */
  class Encode {
    const req: array<Byte>
    const res: array<Byte>
    const meta: array<Meta>
    var reqOffset: nat
    var reqPos: nat
    var resOffset: nat
    var resPos: nat
    var decOffset: nat
    var decPos: nat
    /** The request parameters accepted and the response parameters declared. */
    ghost var sent: seq<Param>
    ghost var slots: seq<Slot>

    /** A new context of otz_client_prepare_encode. */
    constructor ()
      ensures Valid() && sent == [] && slots == [] && decPos == MAX_REQ
      ensures fresh(req) && fresh(res) && fresh(meta)
    {
      req, res, meta := new Byte[BUFFER], new Byte[BUFFER], new Meta[MAX_REQ + MAX_RES];
      reqOffset, reqPos, resOffset, resPos := 0, 0, 0, MAX_REQ;
      decOffset, decPos := 0, MAX_REQ;
      sent, slots := [], [];
    }

    ghost predicate Valid()
      reads this, req, meta
    {
      && req != res && res.Length == BUFFER
      && Sent(req[..], meta[..], reqOffset, reqPos, sent)
      && Declared(meta[..], resOffset, resPos, slots)
      && MAX_REQ <= decPos <= resPos && decOffset == Offset(slots, decPos - MAX_REQ)
    }

    /** What an encode in a direction accepts; the sum of offset and length is a word. */
    predicate Accepts(dir: Direction, len: nat)
      reads this
    {
      match dir
      case In => (reqOffset + len) % W <= BUFFER && reqPos < MAX_REQ
      case Out => (resOffset + len) % W <= BUFFER && resPos < MAX_REQ + MAX_RES
      case Other => true
    }

    /** The stores of an accepted request parameter. */
    method AppendIn(p: Param)
      requires Valid() && ProperSlot(SlotOf(p)) && Accepts(In, |p.data|) && |p.data| + BUFFER < W
      modifies this`reqOffset, this`reqPos, this`sent, req, meta
      ensures Valid() && sent == old(sent) + [p]
    {
      hide Offset, Flat, Describes;
      ghost var req0, meta0 := req[..], meta[..];
      Put(req, reqOffset, p.data);
      ghost var m := Meta(p.kind, |p.data|, meta[reqPos].retLen);
      SentMore(req0, meta0, reqOffset, reqPos, sent, p, req[..], meta0[reqPos := m]);
      DeclaredStays(meta0, resOffset, resPos, slots, reqPos, m);
      meta[reqPos] := meta[reqPos].(kind := p.kind, len := |p.data|);
      assert meta[..] == meta0[reqPos := m];
      reqOffset := reqOffset + |p.data|;
      reqPos := reqPos + 1;
      sent := sent + [p];
    }

    /** The stores of an accepted response parameter.  If its length makes the offset wrap, no parameters
        are described by the metadata any more. */
    method AppendOut(s: Slot)
      requires Valid() && ProperSlot(s) && Accepts(Out, s.len) && s.len < W
      modifies this`resOffset, this`resPos, this`slots, meta
      ensures Valid() <==> old(resOffset) + s.len < W
      ensures slots == old(slots) + [s] && resOffset == (old(resOffset) + s.len) % W
      ensures W <= old(resOffset) + s.len ==> forall ds :: !Declared(meta[..], resOffset, resPos, ds)
    {
      hide Offset, Flat, Describes;
      ghost var meta0 := meta[..];
      ghost var m := Meta(s.kind, AsInt(s.len), meta[resPos].retLen);
      if resOffset + s.len < W {
        DeclaredMore(meta0, resOffset, resPos, slots, s, meta0[resPos := m]);
        SentStays(req[..], meta0, reqOffset, reqPos, sent, resPos, m);
        OffsetPrefix(slots, [s], decPos - MAX_REQ);
      }
      meta[resPos] := meta[resPos].(kind := s.kind, len := AsInt(s.len));
      assert meta[..] == meta0[resPos := m];
      resOffset := (resOffset + s.len) % W;
      resPos := resPos + 1;
      slots := slots + [s];
      if m.len < 0 {
        NoneDeclared(meta[..], resOffset, resPos);
      }
    }

    /** otz_client_encode_uint32, for the four bytes of a word. */
    method EncodeUint32(dir: Direction, value: seq<Byte>) returns (ok: bool)
      requires Valid() && |value| == 4
      modifies this, req, meta
      ensures Valid() && ok == old(Accepts(dir, 4)) && decPos == old(decPos)
      ensures sent == old(sent) + if ok && dir == In then [Param(Uint32, value)] else []
      ensures slots == old(slots) + if ok && dir == Out then [Slot(Uint32, 4)] else []
    {
      assert resOffset <= BUFFER;
      hide Sent, Declared;
      ok := true;
      match dir
      case In =>
        if (reqOffset + 4) % W <= BUFFER && reqPos < MAX_REQ {
          AppendIn(Param(Uint32, value));
        } else {
          ok := false;
        }
      case Out =>
        if (resOffset + 4) % W <= BUFFER && resPos < MAX_REQ + MAX_RES {
          AppendOut(Slot(Uint32, 4));
        } else {
          ok := false;
        }
      case Other =>
    }

    /** otz_client_encode_array, of len bytes of user data; copyOk is the outcome of copying them, which
        cannot succeed for more bytes than lie below the top of the address space.  Nothing is copied for a
        response array: one whose length makes the offset wrap is accepted, and then no parameters are
        described by the metadata any more. */
    method EncodeArray(dir: Direction, data: seq<Byte>, len: nat, copyOk: bool) returns (ok: bool)
      requires Valid() && len < W
      requires dir == In && copyOk ==> len <= |data| && len + BUFFER < W
      modifies this, req, meta
      ensures ok == (old(Accepts(dir, len)) && (dir == In ==> copyOk)) && decPos == old(decPos)
      ensures Valid() <==> !ok || dir != Out || old(resOffset) + len < W
      ensures !Valid() ==> forall ds :: !Declared(meta[..], resOffset, resPos, ds)
      ensures ok && dir == Out ==> resOffset == (old(resOffset) + len) % W
      ensures sent == old(sent) + if ok && dir == In then [Param(Array, data[..len])] else []
      ensures slots == old(slots) + if ok && dir == Out then [Slot(Array, len)] else []
    {
      hide Sent, Declared;
      ok := true;
      match dir
      case In =>
        if (reqOffset + len) % W <= BUFFER && reqPos < MAX_REQ {
          if !copyOk {
            return false;
          }
          AppendIn(Param(Array, data[..len]));
        } else {
          ok := false;
        }
      case Out =>
        if (resOffset + len) % W <= BUFFER && resPos < MAX_REQ + MAX_RES {
          AppendOut(Slot(Array, len));
        } else {
          ok := false;
        }
      case Other =>
    }

    /** otz_client_decode_uint32: nothing happens, and no error is returned, unless a word comes next.
        The entry behind the last declared one is looked at too; if it says word, whatever lies at the
        offset is returned, and the context has decoded more than was declared. */
    method DecodeUint32(ghost answers: seq<seq<Byte>>) returns (got: bool, value: seq<Byte>)
      requires Valid() && decPos < MAX_REQ + MAX_RES
      requires decPos == resPos && meta[decPos].kind == Uint32 ==> decOffset + 4 <= BUFFER
      modifies this`decOffset, this`decPos
      ensures got == (meta[old(decPos)].kind == Uint32)
      ensures Valid() <==> !(got && old(decPos) == resPos)
      ensures decPos == old(decPos) + (if got then 1 else 0) && decOffset == old(decOffset) + (if got then 4 else 0)
      ensures got ==> old(decOffset) + 4 <= res.Length && value == res[old(decOffset)..old(decOffset) + 4]
      ensures got && Answered(res[..], meta[..], slots, answers, |answers|) && old(decPos) - MAX_REQ < |answers| ==>
                value == answers[old(decPos) - MAX_REQ]
    {
      ghost var k := decPos - MAX_REQ;
      if decPos < resPos {
        DeclaredAt(meta[..], resOffset, resPos, slots, k);
      }
      got, value := false, [];
      if decPos <= resPos && meta[decPos].kind == Uint32 {
        value := res[decOffset..decOffset + 4];
        decOffset := decOffset + 4;
        decPos := decPos + 1;
        got := true;
        assert k < |slots| ==> value == res[..][Offset(slots, k)..Offset(slots, k) + 4];
      }
    }

    /** otz_client_decode_array_space, without memory references; copyOk is the outcome of copying to
        the user's buffer, which cannot succeed for a negative length.  As for a word, the entry behind the
        last declared one is looked at too. */
    method DecodeArraySpace(copyOk: bool, ghost answers: seq<seq<Byte>>) returns (ok: bool, data: seq<Byte>)
      requires Valid() && decPos < MAX_REQ + MAX_RES
      requires var m := meta[decPos];
               m.kind == Array && m.retLen <= m.len && copyOk ==>
                 0 <= m.retLen && (decPos == resPos ==> decOffset + m.retLen <= BUFFER)
      modifies this`decOffset, this`decPos
      ensures var m := meta[old(decPos)];
              && ok == (m.kind == Array && m.retLen <= m.len && copyOk)
              && decOffset == (if ok then (old(decOffset) + m.len) % W else old(decOffset))
              && (ok ==> 0 <= m.retLen && old(decOffset) + m.retLen <= res.Length)
              && (ok ==> data == res[old(decOffset)..old(decOffset) + m.retLen])
      ensures Valid() <==> !(ok && old(decPos) == resPos)
      ensures decPos == old(decPos) + if ok then 1 else 0
      ensures ok && Answered(res[..], meta[..], slots, answers, |answers|) && old(decPos) - MAX_REQ < |answers| ==>
                data == answers[old(decPos) - MAX_REQ]
    {
      ghost var k := decPos - MAX_REQ;
      if decPos < resPos {
        DeclaredAt(meta[..], resOffset, resPos, slots, k);
      }
      ok, data := false, [];
      if decPos <= resPos && meta[decPos].kind == Array {
        if meta[decPos].len >= meta[decPos].retLen {
          if !copyOk {
            return;
          }
          data := res[decOffset..decOffset + meta[decPos].retLen];
          decOffset := (decOffset + meta[decPos].len) % W;
          decPos := decPos + 1;
          ok := true;
          assert k < |slots| ==> data == res[..][Offset(slots, k)..Offset(slots, k) + |data|];
        }
      }
    }
  }

  /** A response word and then a response array of 2^32 - 4 bytes: both are accepted, and the offset is
      back at 0, where the word was to be answered. */
  method WrapAccepted() returns (e: Encode, ok: bool)
    ensures fresh(e) && ok && e.slots == [Slot(Uint32, 4), Slot(Array, W - 4)] && e.resOffset == 0
    ensures !e.Valid() && forall ds :: !Declared(e.meta[..], e.resOffset, e.resPos, ds)
  {
    e := new Encode();
    ok := e.EncodeUint32(Out, [0, 0, 0, 0]);
    assert Offset(e.slots, 1) == 4;
    ok := e.EncodeArray(Out, [], W - 4, false);
  }

  // ---- the secure side ----

  /** decode_data, without memory references: where the parameter at a position lies, and the next
      offset and position; on an unknown type, an error. */
  method DecodeData(meta: array<Meta>, offset: int, pos: nat)
    returns (ok: bool, kind: Kind, offset': int, pos': nat, start: int, len: int)
    requires pos < meta.Length
    ensures ok == (meta[pos].kind != Invalid)
    ensures if ok then kind == meta[pos].kind && start == offset && len == meta[pos].len && pos' == pos + 1
            else offset' == offset && pos' == pos
    ensures ok ==> offset' == AsInt(offset + if kind == Uint32 then 4 else len)
  {
    ok, kind, offset', pos', start, len := true, meta[pos].kind, offset, pos, offset, meta[pos].len;
    match meta[pos].kind
    case Uint32 =>
      offset', pos' := AsInt(offset + 4), pos + 1;
    case Array =>
      offset', pos' := AsInt(offset + meta[pos].len), pos + 1;
    case Invalid =>
      ok := false;
  }

  /** update_response_len */
  method UpdateResponseLen(meta: array<Meta>, pos: nat, len: int) returns (ok: bool)
    requires 0 < pos && meta.Length == MAX_REQ + MAX_RES
    modifies meta
    ensures ok == (pos <= MAX_REQ + MAX_RES)
    ensures meta[..] == if ok then old(meta[..])[pos - 1 := old(meta[pos - 1]).(retLen := len)] else old(meta[..])
  {
    if pos <= MAX_REQ + MAX_RES {
      meta[pos - 1] := meta[pos - 1].(retLen := len);
      return true;
    } else {
      return false;
    }
  }

  /** Parameter k of the request, from the metadata and the offset. */
  lemma RequestAt(req: seq<Byte>, meta: seq<Meta>, offset: nat, pos: nat, sent: seq<Param>, k: nat)
    requires Sent(req, meta, offset, pos, sent) && k < |sent|
    ensures k < |meta| && meta[k].kind == sent[k].kind != Invalid && meta[k].len == |sent[k].data|
    ensures sent[k].kind == Uint32 ==> meta[k].len == 4
    ensures var start := Offset(Slots(sent), k);
            start + |sent[k].data| <= |req| && req[start..start + |sent[k].data|] == sent[k].data
    ensures Offset(Slots(sent), k + 1) == Offset(Slots(sent), k) + |sent[k].data|
  {
    hide Flat;
    FlatAt(sent, k);
    assert meta[0 + k].kind == Slots(sent)[k].kind && meta[0 + k].len == Slots(sent)[k].len && ProperSlot(SlotOf(sent[k]));
    var start := Offset(Slots(sent), k);
    assert req[..offset][start..start + |sent[k].data|] == req[start..start + |sent[k].data|];
  }

  /** A service that decodes the request gets the accepted parameters: types, lengths and bytes, in
      order; the secure side's offset is the client's sum of lengths. */
  method DecodeRequest(e: Encode) returns (params: seq<Param>)
    requires e.Valid()
    ensures params == e.sent
  {
    hide Flat, Offset, Describes, Declared;
    OffsetZero(Slots(e.sent));
    var offset, pos := 0, 0;
    params := [];
    while pos < e.reqPos
      invariant pos <= e.reqPos && offset == Offset(Slots(e.sent), pos) && params == e.sent[..pos]
    {
      RequestAt(e.req[..], e.meta[..], e.reqOffset, e.reqPos, e.sent, pos);
      var ok, kind, start, len;
      ok, kind, offset, pos, start, len := DecodeData(e.meta, offset, pos);
      params := params + [Param(kind, e.req[start..start + len])];
    }
  }

  /** Answer k fits what was declared. */
  predicate Fits(s: Slot, answer: seq<Byte>) {
    |answer| <= s.len && (s.kind == Uint32 ==> |answer| == s.len)
  }

  ghost predicate AnswerAt(res: seq<Byte>, meta: seq<Meta>, slots: seq<Slot>, k: nat, answer: seq<Byte>)
    requires k < |slots| && MAX_REQ + k < |meta|
  {
    && Fits(slots[k], answer)
    && Offset(slots, k) + |answer| <= |res|
    && res[Offset(slots, k)..Offset(slots, k) + |answer|] == answer
    && (slots[k].kind == Array ==> meta[MAX_REQ + k].retLen == |answer|)
  }

  /** The first n answers lie where the client will look for them, with their lengths. */
  ghost predicate Answered(res: seq<Byte>, meta: seq<Meta>, slots: seq<Slot>, answers: seq<seq<Byte>>, n: nat) {
    && n <= |answers| <= |slots| && MAX_REQ + |slots| <= |meta|
    && forall k :: 0 <= k < n ==> AnswerAt(res, meta, slots, k, answers[k])
  }

  /** Writing answer n behind the earlier ones does not touch them. */
  lemma AnswerMore(res: seq<Byte>, meta: seq<Meta>, slots: seq<Slot>, answers: seq<seq<Byte>>, n: nat,
      res': seq<Byte>, meta': seq<Meta>)
    requires Answered(res, meta, slots, answers, n) && n < |answers| && Fits(slots[n], answers[n])
    requires Offset(slots, n) + |answers[n]| <= |res|
    requires res' == res[..Offset(slots, n)] + answers[n] + res[Offset(slots, n) + |answers[n]|..]
    requires |meta'| == |meta| && forall i :: 0 <= i < MAX_REQ + n ==> meta'[i] == meta[i]
    requires slots[n].kind == Array ==> meta'[MAX_REQ + n].retLen == |answers[n]|
    ensures Answered(res', meta', slots, answers, n + 1)
  {
    hide Offset;
    forall k | 0 <= k < n
      ensures AnswerAt(res', meta', slots, k, answers[k])
    {
      OffsetNext(slots, k);
      OffsetMonotonic(slots, k + 1, n);
      assert AnswerAt(res, meta, slots, k, answers[k]);
      assert res'[Offset(slots, k)..Offset(slots, k) + |answers[k]|] == res[Offset(slots, k)..Offset(slots, k) + |answers[k]|];
    }
    assert res'[Offset(slots, n)..Offset(slots, n) + |answers[n]|] == answers[n];
  }

  lemma OffsetNext(slots: seq<Slot>, k: nat)
    requires k < |slots|
    ensures Offset(slots, k + 1) == Offset(slots, k) + slots[k].len
  {
  }

  lemma OffsetZero(slots: seq<Slot>)
    ensures Offset(slots, 0) == 0
  {
  }

  /** A service that walks the response parameters and answers each: it writes where decode_data says,
      and records the length of an array. */
  method Respond(e: Encode, answers: seq<seq<Byte>>)
    requires e.Valid() && |answers| == |e.slots|
    requires forall k :: 0 <= k < |answers| ==> Fits(e.slots[k], answers[k])
    modifies e.res, e.meta
    ensures e.Valid() && Answered(e.res[..], e.meta[..], e.slots, answers, |answers|)
  {
    hide Offset, AsInt, Sent, Declared, Answered;
    var offset, pos := 0, MAX_REQ;
    ghost var meta0 := e.meta[..];
    NoneAnswered(e.res[..], meta0, e.slots, answers, e.resOffset, e.resPos);
    OffsetZero(e.slots);
    while pos < e.resPos
      invariant MAX_REQ <= pos <= e.resPos && offset == Offset(e.slots, pos - MAX_REQ)
      invariant SameShape(e.meta[..], meta0)
      invariant Answered(e.res[..], e.meta[..], e.slots, answers, pos - MAX_REQ)
    {
      ghost var n := pos - MAX_REQ;
      ghost var res1, meta1 := e.res[..], e.meta[..];
      OffsetNext(e.slots, n);
      DeclaredAt(meta0, e.resOffset, e.resPos, e.slots, n);
      SmallInt(Offset(e.slots, n + 1));
      var ok, kind, start, len;
      ok, kind, offset, pos, start, len := DecodeData(e.meta, offset, pos);
      var answer := answers[pos - 1 - MAX_REQ];
      Put(e.res, start, answer);
      if kind == Array {
        var done := UpdateResponseLen(e.meta, pos, |answer|);
      }
      AnswerMore(res1, meta1, e.slots, answers, n, e.res[..], e.meta[..]);
    }
    SentShape(e.req[..], meta0, e.reqOffset, e.reqPos, e.sent, e.meta[..]);
    DeclaredShape(meta0, e.resOffset, e.resPos, e.slots, e.meta[..]);
  }

  lemma NoneAnswered(res: seq<Byte>, meta: seq<Meta>, slots: seq<Slot>, answers: seq<seq<Byte>>, offset: nat, pos: nat)
    requires Declared(meta, offset, pos, slots) && |answers| == |slots|
    ensures Answered(res, meta, slots, answers, 0) && pos == MAX_REQ + |slots| <= |meta| == MAX_REQ + MAX_RES
  {
  }

  lemma SentShape(req: seq<Byte>, meta: seq<Meta>, offset: nat, pos: nat, sent: seq<Param>, meta': seq<Meta>)
    requires Sent(req, meta, offset, pos, sent) && SameShape(meta', meta)
    ensures Sent(req, meta', offset, pos, sent)
  {
  }

  lemma DeclaredShape(meta: seq<Meta>, offset: nat, pos: nat, slots: seq<Slot>, meta': seq<Meta>)
    requires Declared(meta, offset, pos, slots) && SameShape(meta', meta)
    ensures Declared(meta', offset, pos, slots)
  {
  }

  /** Only response lengths differ. */
  ghost predicate SameShape(meta: seq<Meta>, meta': seq<Meta>) {
    |meta| == |meta'| && forall i :: 0 <= i < |meta| ==> meta[i].kind == meta'[i].kind && meta[i].len == meta'[i].len
  }

  /** The client's decodes return the service's answers, one after the other. */
  method CollectResponses(e: Encode, ghost answers: seq<seq<Byte>>) returns (received: seq<seq<Byte>>)
    requires e.Valid() && e.decPos == MAX_REQ && |answers| == |e.slots|
    requires Answered(e.res[..], e.meta[..], e.slots, answers, |answers|)
    modifies e`decOffset, e`decPos
    ensures e.Valid() && e.decPos == e.resPos && received == answers
  {
    hide Offset, Sent;
    received := [];
    while e.decPos < e.resPos
      invariant e.Valid() && MAX_REQ <= e.decPos <= e.resPos && received == answers[..e.decPos - MAX_REQ]
    {
      ghost var k := e.decPos - MAX_REQ;
      assert AnswerAt(e.res[..], e.meta[..], e.slots, k, answers[k]);
      var ok, data;
      if e.meta[e.decPos].kind == Uint32 {
        ok, data := e.DecodeUint32(answers);
      } else {
        ok, data := e.DecodeArraySpace(true, answers);
      }
      received := received + [data];
    }
  }
}
