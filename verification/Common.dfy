/** Shared vocabulary: optional values, the 32-bit integers of the API types, and the few string operations the
    operator relies on. A string is the sequence of its characters; object names are ASCII, so characters and bytes
    coincide where the code counts them. */
module Common {

  datatype Option<+T> = None | Some(value: T)

  type int32 = x: int | -0x8000_0000 <= x < 0x8000_0000

  /** The order of Go's `<` on strings. */
  predicate Less(a: string, b: string) {
    b != [] && (a == [] || a[0] < b[0] || (a[0] == b[0] && Less(a[1..], b[1..])))
  }

  /** The order of a dictionary: a is the beginning of b and shorter, or has the smaller character where they first
      differ. */
  ghost predicate ComesFirst(a: string, b: string) {
    || (|a| < |b| && a <= b)
    || exists k :: 0 <= k < |a| && k < |b| && a[..k] == b[..k] && a[k] < b[k]
  }

  /** Equal first characters play no part. */
  lemma EqualHeadsPlayNoPart(c: char, a: string, b: string)
    ensures ComesFirst([c] + a, [c] + b) <==> ComesFirst(a, b)
  {
    var x, y := [c] + a, [c] + b;
    assert x <= y <==> a <= b by {
      assert x[1..] == a && y[1..] == b;
    }
    forall k | 0 <= k < |a| && k < |b|
      ensures x[..k + 1] == y[..k + 1] <==> a[..k] == b[..k]
    {
      assert x[..k + 1] == [c] + a[..k] && y[..k + 1] == [c] + b[..k];
      assert x[..k + 1][1..] == a[..k] && y[..k + 1][1..] == b[..k];
    }
    if k :| 0 <= k < |a| && k < |b| && a[..k] == b[..k] && a[k] < b[k] {
      assert x[k + 1] < y[k + 1];
    }
    if k :| 0 <= k < |x| && k < |y| && x[..k] == y[..k] && x[k] < y[k] {
      assert a[..k - 1] == b[..k - 1] && a[k - 1] < b[k - 1];
    }
  }

  /** Comparing from the front gives the order of a dictionary. */
  lemma {:induction false} LessExactlyWhenComesFirst(a: string, b: string)
    ensures Less(a, b) <==> ComesFirst(a, b)
  {
    if a == [] || b == [] || a[0] != b[0] {
      assert a[..0] == b[..0];
    } else {
      LessExactlyWhenComesFirst(a[1..], b[1..]);
      assert a == [a[0]] + a[1..] && b == [a[0]] + b[1..];
      EqualHeadsPlayNoPart(a[0], a[1..], b[1..]);
    }
  }

  lemma {:induction false} LessIsTotal(a: string, b: string)
    ensures a == b || Less(a, b) || Less(b, a)
  {
    if a != [] && b != [] && a[0] == b[0] {
      LessIsTotal(a[1..], b[1..]);
      assert a == [a[0]] + a[1..] && b == [b[0]] + b[1..];
    }
  }

  lemma {:induction false} LessIsAsymmetric(a: string, b: string)
    requires Less(a, b)
    ensures !Less(b, a)
  {
    if a != [] && a[0] == b[0] {
      LessIsAsymmetric(a[1..], b[1..]);
    }
  }

  lemma {:induction false} LessIsTransitive(a: string, b: string, c: string)
    requires Less(a, b) && Less(b, c)
    ensures Less(a, c)
  {
    if a != [] && a[0] == b[0] == c[0] {
      LessIsTransitive(a[1..], b[1..], c[1..]);
    }
  }

  /** unicode.IsSpace */
  predicate IsSpace(c: char) {
    var u := c as int;
    || 0x9 <= u <= 0xD || u == 0x20 || u == 0x85 || u == 0xA0
    || u == 0x1680 || 0x2000 <= u <= 0x200A || u == 0x2028 || u == 0x2029
    || u == 0x202F || u == 0x205F || u == 0x3000
  }

  /** The 25 characters of Unicode's White_Space property. */
  lemma SpacesInUnicode(c: char)
    ensures IsSpace(c) <==> c in ['\t', '\n', '\U{b}', '\U{c}', '\r', ' ', '\U{85}', '\U{a0}', '\U{1680}', '\U{2000}',
                                  '\U{2001}', '\U{2002}', '\U{2003}', '\U{2004}', '\U{2005}', '\U{2006}', '\U{2007}',
                                  '\U{2008}', '\U{2009}', '\U{200a}', '\U{2028}', '\U{2029}', '\U{202f}', '\U{205f}',
                                  '\U{3000}']
  {
  }

  function TrimLeft(s: string): string {
    if s != [] && IsSpace(s[0]) then TrimLeft(s[1..]) else s
  }

  function TrimRight(s: string): string {
    if s != [] && IsSpace(s[|s| - 1]) then TrimRight(s[..|s| - 1]) else s
  }

  /** strings.TrimSpace */
  function TrimSpace(s: string): string {
    TrimRight(TrimLeft(s))
  }

  predicate Blank(s: string) {
    forall i | 0 <= i < |s| :: IsSpace(s[i])
  }

  lemma {:induction false} TrimLeftOfBlank(s: string)
    ensures TrimLeft(s) == [] <==> Blank(s)
    ensures TrimLeft(s) != [] ==> !IsSpace(TrimLeft(s)[0])
  {
    if s != [] && IsSpace(s[0]) {
      TrimLeftOfBlank(s[1..]);
      assert Blank(s) <==> Blank(s[1..]) by {
        assert s == [s[0]] + s[1..];
      }
    }
  }

  lemma {:induction false} TrimRightKeepsHead(s: string)
    requires s != [] && !IsSpace(s[0])
    ensures TrimRight(s) != []
  {
    if IsSpace(s[|s| - 1]) {
      TrimRightKeepsHead(s[..|s| - 1]);
    }
  }

  /** A string trims to nothing exactly when it holds white space only. */
  lemma TrimSpaceOfBlank(s: string)
    ensures TrimSpace(s) == [] <==> Blank(s)
  {
    TrimLeftOfBlank(s);
    if TrimLeft(s) != [] {
      TrimRightKeepsHead(TrimLeft(s));
    }
  }

  lemma {:induction false} TrimLeftDropsPadding(pad: string, body: string)
    requires Blank(pad) && body != [] && !IsSpace(body[0])
    ensures TrimLeft(pad + body) == body
  {
    if pad == [] {
      assert pad + body == body;
    } else {
      assert (pad + body)[1..] == pad[1..] + body;
      TrimLeftDropsPadding(pad[1..], body);
    }
  }

  lemma {:induction false} TrimRightDropsPadding(body: string, pad: string)
    requires Blank(pad) && body != [] && !IsSpace(body[|body| - 1])
    ensures TrimRight(body + pad) == body
  {
    if pad == [] {
      assert body + pad == body;
    } else {
      var n := |pad| - 1;
      assert (body + pad)[..|body + pad| - 1] == body + pad[..n];
      TrimRightDropsPadding(body, pad[..n]);
    }
  }

  /** White space around a text that neither begins nor ends with any is dropped, and nothing else. */
  lemma TrimSpaceDropsPadding(left: string, body: string, right: string)
    requires Blank(left) && Blank(right)
    requires body != [] && !IsSpace(body[0]) && !IsSpace(body[|body| - 1])
    ensures TrimSpace(left + body + right) == body
  {
    assert left + body + right == left + (body + right);
    TrimLeftDropsPadding(left, body + right);
    TrimRightDropsPadding(body, right);
  }

  /** strconv.ParseBool */
  function ParseBool(s: string): Option<bool> {
    if s in {"1", "t", "T", "true", "TRUE", "True"} then Some(true)
    else if s in {"0", "f", "F", "false", "FALSE", "False"} then Some(false)
    else None
  }
}
