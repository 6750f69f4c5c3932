/** The DHCP hook that extends the parameter request list (src/dhcp.c). */
module Dhcp {
  import opened Options

  type Byte = b: int | 0 <= b < 256

  const DHCP_REQUEST: Byte := 3

  /** Option code of the parameter request list, section 9.8 of RFC 2132. */
  const PARAMETERS: Byte := 55
  const OPTION_LOG: Byte := 7
  const OPTION_POSIX_TZ: Byte := 100

  const NEW_PARAMETERS: seq<Byte> := [OPTION_LOG, OPTION_POSIX_TZ]

  /** An option other than pad and end, section 2 of RFC 2132: code, length, data. */
  datatype Opt = Opt(code: Byte, data: seq<Byte>)

  function Decode(b: seq<Byte>): (r: Option<seq<Opt>>)
    decreases |b|
  {
    if b == [] then Some([])
    else if |b| < 2 || |b| - 2 < b[1] then None
    else
      match Decode(b[2 + b[1]..])
      case None => None
      case Some(rest) => Some([Opt(b[0], b[2..2 + b[1]])] + rest)
  }

  /** What the hook is meant to do to an option. */
  function Extended(o: Opt): Opt {
    if o.code == PARAMETERS then Opt(o.code, o.data + NEW_PARAMETERS) else o
  }

  function ExtendAll(opts: seq<Opt>): (r: seq<Opt>)
    ensures |r| == |opts| && forall k :: 0 <= k < |r| ==> r[k] == Extended(opts[k])
  {
    if opts == [] then [] else [Extended(opts[0])] + ExtendAll(opts[1..])
  }

  /** The bytes of an option; the length is cut to a byte, as in the code. */
  function Bytes(o: Opt): seq<Byte> {
    [o.code, |o.data| % 256] + o.data
  }

  function AllBytes(opts: seq<Opt>): seq<Byte> {
    if opts == [] then [] else Bytes(opts[0]) + AllBytes(opts[1..])
  }

  function Requests(opts: seq<Opt>): nat {
    if opts == [] then 0 else (if opts[0].code == PARAMETERS then 1 else 0) + Requests(opts[1..])
  }

  // --------------------------------------------------------------------------------------------
  // The hook

  /** `now` is `was` with `src` written over it from position `to` on. */
  ghost predicate Wrote(was: seq<Byte>, now: seq<Byte>, to: nat, src: seq<Byte>) {
    && |now| == |was| && to + |src| <= |was|
    && forall k :: 0 <= k < |now| ==> now[k] == if to <= k < to + |src| then src[k - to] else was[k]
  }

  lemma WroteTwice(was: seq<Byte>, mid: seq<Byte>, now: seq<Byte>, to: nat, a: seq<Byte>, b: seq<Byte>)
    requires Wrote(was, mid, to, a) && Wrote(mid, now, to + |a|, b)
    ensures Wrote(was, now, to, a + b)
  {
  }

  lemma WroteParts(was: seq<Byte>, now: seq<Byte>, src: seq<Byte>)
    requires Wrote(was, now, 0, src)
    ensures now[..|src|] == src && now[|src|..] == was[|src|..]
  {
  }

  lemma OneMore(src: seq<Byte>, i: nat)
    requires i < |src|
    ensures src[..i] + [src[i]] == src[..i + 1]
  {
  }

  lemma WholePrefix(src: seq<Byte>)
    ensures src[..|src|] == src && src[0..] == src
  {
  }

  method PutByte(dst: array<Byte>, to: nat, b: Byte)
    requires to < dst.Length
    modifies dst
    ensures Wrote(old(dst[..]), dst[..], to, [b])
  {
    dst[to] := b;
  }

  method CopyBytes(dst: array<Byte>, to: nat, src: seq<Byte>)
    requires to + |src| <= dst.Length
    modifies dst
    ensures Wrote(old(dst[..]), dst[..], to, src)
  {
    var i := 0;
    ghost var was := dst[..];
    while i < |src|
      invariant 0 <= i <= |src|
      invariant Wrote(was, dst[..], to, src[..i])
    {
      ghost var mid := dst[..];
      PutByte(dst, to + i, src[i]);
      WroteTwice(was, mid, dst[..], to, src[..i], [src[i]]);
      OneMore(src, i);
      i := i + 1;
    }
    WholePrefix(src);
  }

  /** The option at `ptr`. */
  function OptionAt(tmp: seq<Byte>, ptr: nat): Opt
    requires ptr + 1 < |tmp| && ptr + 2 + tmp[ptr + 1] <= |tmp|
  {
    Opt(tmp[ptr], tmp[ptr + 2..ptr + 2 + tmp[ptr + 1]])
  }

  /** One round of the rebuilding loop: the option at `oldPtr` of the copy goes to `newPtr`. */
  method RewriteOption(options: array<Byte>, newPtr: nat, tmp: seq<Byte>, oldPtr: nat)
    returns (newNext: nat, oldNext: nat)
    requires oldPtr + 1 < |tmp| && oldPtr + 2 + tmp[oldPtr + 1] <= |tmp|
    requires newPtr + |Bytes(Extended(OptionAt(tmp, oldPtr)))| <= options.Length
    modifies options
    ensures oldNext == oldPtr + 2 + tmp[oldPtr + 1]
    ensures newNext == newPtr + |Bytes(Extended(OptionAt(tmp, oldPtr)))|
    ensures Wrote(old(options[..]), options[..], newPtr, Bytes(Extended(OptionAt(tmp, oldPtr))))
  {
    var code, len := tmp[oldPtr], tmp[oldPtr + 1];
    oldNext := oldPtr + 2 + len;
    ghost var was := options[..];
    var newLength: Byte := if code == PARAMETERS then (len + |NEW_PARAMETERS|) % 256 else len;
    CopyOption(options, newPtr, code, newLength, tmp[oldPtr + 2..oldNext]);
    newNext := newPtr + 2 + len;
    if code == PARAMETERS {
      ghost var copied := options[..];
      CopyBytes(options, newNext, NEW_PARAMETERS);
      WroteTwice(was, copied, options[..], newPtr, [code, newLength] + tmp[oldPtr + 2..oldNext], NEW_PARAMETERS);
      newNext := newNext + |NEW_PARAMETERS|;
      Associate([code, newLength], tmp[oldPtr + 2..oldNext], NEW_PARAMETERS);
    }
  }

  method CopyOption(options: array<Byte>, ptr: nat, code: Byte, len: Byte, data: seq<Byte>)
    requires ptr + 2 + |data| <= options.Length
    modifies options
    ensures Wrote(old(options[..]), options[..], ptr, [code, len] + data)
  {
    ghost var was := options[..];
    options[ptr] := code;
    options[ptr + 1] := len;
    ghost var head := options[..];
    CopyBytes(options, ptr + 2, data);
    WroteTwice(was, head, options[..], ptr, [code, len], data);
  }

  /** `pico_dhcp_option_add_hook`. The bytes must be options and the result must fit: with at most one
      request list the assertion in the code says as much. */
  method OptionAddHook(options: array<Byte>, msgType: Byte, origLen: nat) returns (newLen: nat)
    requires origLen <= options.Length < 0x1_0000
    requires msgType == DHCP_REQUEST ==>
               && Decode(options[..origLen]).Some?
               && origLen + 2 * Requests(Decode(options[..origLen]).value) <= options.Length
    modifies options
    ensures msgType != 3 ==> newLen == origLen && options[..] == old(options[..])
    ensures msgType == 3 ==>
              var opts := Decode(old(options[..origLen])).value;
              && newLen == origLen + 2 * Requests(opts) <= options.Length
              && options[..newLen] == AllBytes(ExtendAll(opts)) && Adds(opts, ExtendAll(opts))
              && options[newLen..] == old(options[newLen..])
  {
    if msgType != DHCP_REQUEST {
      return origLen;
    }
    var tmp := options[..origLen];
    ghost var was := options[..];
    ExtendedLength(tmp);
    newLen := Rebuild(options, tmp);
    WroteParts(was, options[..], AllBytes(ExtendAll(Decode(tmp).value)));
    ExtendAllAdds(Decode(tmp).value);
  }

  /** The rebuilding loop. */
  method Rebuild(options: array<Byte>, tmp: seq<Byte>) returns (newPtr: nat)
    requires Decode(tmp).Some? && |AllBytes(ExtendAll(Decode(tmp).value))| <= options.Length
    modifies options
    ensures newPtr == |AllBytes(ExtendAll(Decode(tmp).value))|
    ensures Wrote(old(options[..]), options[..], 0, AllBytes(ExtendAll(Decode(tmp).value)))
  {
    ghost var all := AllBytes(ExtendAll(Decode(tmp).value));
    ghost var out: seq<Byte> := [];
    ghost var was := options[..];
    WholePrefix(tmp);
    var oldPtr: nat := 0;
    newPtr := 0;
    while oldPtr < |tmp|
      invariant oldPtr <= |tmp| && newPtr == |out|
      invariant Remaining(tmp, oldPtr, out, all)
      invariant Wrote(was, options[..], 0, out)
    {
      newPtr, oldPtr, out := RebuildStep(options, newPtr, tmp, oldPtr, was, out, all);
    }
    NothingRemains(tmp, out, all);
  }

  /** The body of that loop; `out` is what has been written since `was`. */
  method RebuildStep(options: array<Byte>, newPtr: nat, tmp: seq<Byte>, oldPtr: nat,
                     ghost was: seq<Byte>, ghost out: seq<Byte>, ghost all: seq<Byte>)
    returns (newNext: nat, oldNext: nat, ghost outNext: seq<Byte>)
    requires oldPtr < |tmp| && newPtr == |out| && |all| <= options.Length
    requires Remaining(tmp, oldPtr, out, all) && Wrote(was, options[..], 0, out)
    modifies options
    ensures oldPtr < oldNext <= |tmp| && newNext == |outNext|
    ensures Remaining(tmp, oldNext, outNext, all) && Wrote(was, options[..], 0, outNext)
  {
    RemainingNext(tmp, oldPtr, out, all);
    ghost var mid := options[..];
    newNext, oldNext := RewriteOption(options, newPtr, tmp, oldPtr);
    outNext := out + Bytes(Extended(OptionAt(tmp, oldPtr)));
    WroteTwice(was, mid, options[..], 0, out, Bytes(Extended(OptionAt(tmp, oldPtr))));
  }

  /** The bytes `out` lack exactly what the options from `ptr` on become. */
  ghost predicate Remaining(tmp: seq<Byte>, ptr: nat, out: seq<Byte>, all: seq<Byte>) {
    && ptr <= |tmp| && Decode(tmp[ptr..]).Some?
    && out + AllBytes(ExtendAll(Decode(tmp[ptr..]).value)) == all
  }

  lemma RemainingNext(tmp: seq<Byte>, ptr: nat, out: seq<Byte>, all: seq<Byte>)
    requires Remaining(tmp, ptr, out, all) && ptr < |tmp|
    ensures ptr + 1 < |tmp| && ptr + 2 + tmp[ptr + 1] <= |tmp|
    ensures Remaining(tmp, ptr + 2 + tmp[ptr + 1], out + Bytes(Extended(OptionAt(tmp, ptr))), all)
    ensures |out| + |Bytes(Extended(OptionAt(tmp, ptr)))| <= |all|
  {
    NextOption(tmp, ptr);
    var left := Decode(tmp[ptr..]).value;
    Associate(out, Bytes(Extended(left[0])), AllBytes(ExtendAll(left[1..])));
  }

  lemma NothingRemains(tmp: seq<Byte>, out: seq<Byte>, all: seq<Byte>)
    requires Remaining(tmp, |tmp|, out, all)
    ensures out == all
  {
    assert tmp[|tmp|..] == [];
  }

  lemma Associate(a: seq<Byte>, b: seq<Byte>, c: seq<Byte>)
    ensures a + (b + c) == (a + b) + c
  {
  }

  lemma NextOption(tmp: seq<Byte>, ptr: nat)
    requires ptr < |tmp| && Decode(tmp[ptr..]).Some?
    ensures ptr + 1 < |tmp| && ptr + 2 + tmp[ptr + 1] <= |tmp|
    ensures var next := ptr + 2 + tmp[ptr + 1];
            var opts := Decode(tmp[ptr..]).value;
            && opts != [] && opts[0] == OptionAt(tmp, ptr) && Decode(tmp[next..]) == Some(opts[1..])
            && AllBytes(ExtendAll(opts)) == Bytes(Extended(opts[0])) + AllBytes(ExtendAll(opts[1..]))
  {
    var b := tmp[ptr..];
    var next := ptr + 2 + tmp[ptr + 1];
    assert b[2 + b[1]..] == tmp[next..];
    assert b[2..2 + b[1]] == tmp[ptr + 2..next];
    var opts := Decode(b).value;
    assert ExtendAll(opts)[1..] == ExtendAll(opts[1..]);
  }

  // --------------------------------------------------------------------------------------------
  // Meaning

  /** The rewritten options take two bytes more for each request list. */
  lemma {:induction false} ExtendedLength(b: seq<Byte>)
    requires Decode(b).Some?
    ensures var opts := Decode(b).value;
            |AllBytes(ExtendAll(opts))| == |b| + 2 * Requests(opts)
    decreases |b|
  {
    if b != [] {
      assert b[0..] == b;
      NextOption(b, 0);
      ExtendedLength(b[2 + b[1]..]);
    }
  }

  lemma {:induction false} DecodedFits(b: seq<Byte>, k: nat)
    requires Decode(b).Some? && k < |Decode(b).value|
    ensures |Decode(b).value[k].data| <= 255
    decreases |b|
  {
    if k > 0 { DecodedFits(b[2 + b[1]..], k - 1); }
  }

  lemma DecodeFirst(o: Opt, tail: seq<Byte>)
    requires |o.data| <= 255
    ensures Decode(Bytes(o) + tail) ==
              (match Decode(tail) case None => None case Some(rest) => Some([o] + rest))
  {
    var b := Bytes(o) + tail;
    assert b[2..2 + |o.data|] == o.data;
    assert b[2 + |o.data|..] == tail;
  }

  /** Options whose data fit the length byte survive being written and read. */
  lemma {:induction false} DecodeBytes(opts: seq<Opt>)
    requires forall k :: 0 <= k < |opts| ==> |opts[k].data| <= 255
    ensures Decode(AllBytes(opts)) == Some(opts)
  {
    if opts != [] {
      DecodeBytes(opts[1..]);
      DecodeFirst(opts[0], AllBytes(opts[1..]));
      assert opts == [opts[0]] + opts[1..];
    }
  }

  /** Every request list has room for two more codes in its length byte. */
  predicate Extendable(opts: seq<Opt>) {
    forall k :: 0 <= k < |opts| ==> opts[k].code == PARAMETERS ==> |opts[k].data| <= 253
  }

  lemma ExtendableMeans(b: seq<Byte>, opts: seq<Opt>)
    requires Decode(b) == Some(opts) && Extendable(opts)
    ensures Decode(AllBytes(ExtendAll(opts))) == Some(ExtendAll(opts))
  {
    forall k | 0 <= k < |opts| ensures |Extended(opts[k]).data| <= 255 { DecodedFits(b, k); }
    DecodeBytes(ExtendAll(opts));
  }

  lemma TooLongToDecode(b: seq<Byte>, out: seq<Opt>, k: nat)
    requires k < |out| && |out[k].data| > 255
    ensures Decode(b) != Some(out)
  {
    if Decode(b) == Some(out) { DecodedFits(b, k); }
  }

  /** The rewritten bytes mean the old options, in order, with 7 and 100 added to each request list,
      exactly when the lengths of the request lists leave room; a longer one makes the length wrap. */
  lemma RewriteKeepsMeaning(b: seq<Byte>)
    requires Decode(b).Some?
    ensures var opts := Decode(b).value;
            && (Decode(AllBytes(ExtendAll(opts))) == Some(ExtendAll(opts)) <==> Extendable(opts))
            && Adds(opts, ExtendAll(opts))
  {
    var opts := Decode(b).value;
    ExtendAllAdds(opts);
    if Extendable(opts) {
      ExtendableMeans(b, opts);
    } else {
      var k :| 0 <= k < |opts| && opts[k].code == PARAMETERS && |opts[k].data| > 253;
      TooLongToDecode(AllBytes(ExtendAll(opts)), ExtendAll(opts), k);
    }
  }

  /** The same options in the same order, 7 and 100 standing behind the codes of each request list. */
  ghost predicate Adds(opts: seq<Opt>, out: seq<Opt>) {
    && |out| == |opts|
    && forall k :: 0 <= k < |opts| ==>
         && out[k].code == opts[k].code
         && out[k].data == opts[k].data + if opts[k].code == 55 then [7, 100] else []
  }

  lemma ExtendAllAdds(opts: seq<Opt>)
    ensures Adds(opts, ExtendAll(opts))
  {
  }

  lemma {:induction false} OptionFits(b: seq<Byte>, k: nat)
    requires Decode(b).Some? && k < |Decode(b).value|
    ensures |Decode(b).value[k].data| + 2 <= |b|
    decreases |b|
  {
    if k > 0 { OptionFits(b[2 + b[1]..], k - 1); }
  }

  lemma {:induction false} HasRequest(opts: seq<Opt>, k: nat)
    requires k < |opts| && opts[k].code == PARAMETERS
    ensures Requests(opts) >= 1
  {
    if k > 0 { HasRequest(opts[1..], k - 1); }
  }

  /** Whatever fits an option buffer of at most 257 bytes once rewritten keeps its meaning. */
  lemma SmallBufferExtends(b: seq<Byte>)
    requires Decode(b).Some? && |b| + 2 * Requests(Decode(b).value) <= 257
    ensures Extendable(Decode(b).value)
    ensures Decode(AllBytes(ExtendAll(Decode(b).value))) == Some(ExtendAll(Decode(b).value))
  {
    var opts := Decode(b).value;
    forall k | 0 <= k < |opts| && opts[k].code == PARAMETERS ensures |opts[k].data| <= 253 {
      OptionFits(b, k);
      HasRequest(opts, k);
    }
    RewriteKeepsMeaning(b);
  }

  /** One byte more and there are options that do not. */
  lemma LargerBufferWraps(data: seq<Byte>)
    requires |data| == 254
    ensures var b := Bytes(Opt(PARAMETERS, data));
            && Decode(b) == Some([Opt(PARAMETERS, data)])
            && |b| + 2 * Requests([Opt(PARAMETERS, data)]) == 258 && !Extendable([Opt(PARAMETERS, data)])
            && Bytes(Extended(Opt(PARAMETERS, data)))[..2] == [55, 0]
  {
    var o := Opt(PARAMETERS, data);
    DecodeFirst(o, []);
    assert Bytes(o) + [] == Bytes(o);
    assert [o] + [] == [o] && [o][1..] == [];
    assert [o][0] == o;
  }

  lemma DecodeNext(b: seq<Byte>, n: nat)
    requires b != [] && Decode(b).Some? && |b| >= 2 && n == b[1] as nat + 2
    ensures n <= |b| && Decode(b[n..]).Some?
    ensures Decode(b).value == [Opt(b[0], b[2..n])] + Decode(b[n..]).value
  {
  }

  lemma AllBytesCons(o: Opt, rest: seq<Opt>)
    requires |o.data| <= 255
    ensures AllBytes([o] + rest) == [o.code, |o.data|] + o.data + AllBytes(rest)
  {
    assert ([o] + rest)[1..] == rest;
  }

  lemma CutAndJoin(b: seq<Byte>, n: nat)
    requires 2 <= n <= |b|
    ensures [b[0], b[1]] + b[2..n] + b[n..] == b
  {
  }

  /** Decoding loses nothing: the bytes can be rebuilt from the options. */
  lemma {:induction false} BytesOfDecoded(b: seq<Byte>)
    requires Decode(b).Some?
    ensures AllBytes(Decode(b).value) == b
    decreases |b|
  {
    if b != [] {
      var n := b[1] as nat + 2;
      BytesOfDecoded(b[n..]);
      DecodeNext(b, n);
      AllBytesCons(Opt(b[0], b[2..n]), Decode(b[n..]).value);
      CutAndJoin(b, n);
    }
  }

  lemma {:induction false} NothingToExtend(opts: seq<Opt>)
    requires Requests(opts) == 0
    ensures ExtendAll(opts) == opts
  {
    if opts != [] { NothingToExtend(opts[1..]); }
  }

  /** Without a request list the message is left byte for byte as it was. */
  lemma NoRequestNoChange(b: seq<Byte>)
    requires Decode(b).Some? && Requests(Decode(b).value) == 0
    ensures AllBytes(ExtendAll(Decode(b).value)) == b
  {
    NothingToExtend(Decode(b).value);
    BytesOfDecoded(b);
  }
}
