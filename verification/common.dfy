/** Small pieces of JavaScript semantics that several components of the
    dashboard client rely on: optional values, `String.prototype.trim`,
    the truthiness of optional numbers and `Math.round` applied to the
    quotient of two integers. */
module Common {

  /** `undefined` (or an absent property) versus a present value. */
  datatype Option<T> = None | Some(value: T)

  /** The characters `String.prototype.trim` removes: the ECMAScript
      WhiteSpace and LineTerminator code points. */
  predicate IsWhite(c: char)
  {
    c == '\t' || c == '\n' || c == '\U{000B}' || c == '\U{000C}' || c == '\r' ||
    c == ' ' || c == '\U{00A0}' || c == '\U{1680}' ||
    ('\U{2000}' <= c <= '\U{200A}') ||
    c == '\U{2028}' || c == '\U{2029}' || c == '\U{202F}' || c == '\U{205F}' ||
    c == '\U{3000}' || c == '\U{FEFF}'
  }

  predicate AllWhite(s: string)
  {
    forall i :: 0 <= i < |s| ==> IsWhite(s[i])
  }

  /** Drops the leading white space of `s`. */
  function TrimStart(s: string): string
  {
    if s != [] && IsWhite(s[0]) then TrimStart(s[1..]) else s
  }

  /** What `TrimStart` drops is a white prefix, and what it keeps is the
      rest of the string, starting with a character that is not white. */
  lemma {:induction false} TrimStartShape(s: string)
    ensures |TrimStart(s)| <= |s| && TrimStart(s) == s[|s| - |TrimStart(s)|..]
    ensures AllWhite(s[..|s| - |TrimStart(s)|])
    ensures TrimStart(s) != [] ==> !IsWhite(TrimStart(s)[0])
  {
    if s != [] && IsWhite(s[0]) {
      var r := TrimStart(s[1..]);
      TrimStartShape(s[1..]);
      assert s[1..][|s| - 1 - |r|..] == s[|s| - |r|..];
      assert forall i :: 1 <= i < |s| - |r| ==> s[i] == s[1..][..|s| - 1 - |r|][i - 1];
    }
  }

  /** White space in front of a string is dropped with the rest of its
      leading white space. */
  lemma {:induction false} TrimStartAfterWhite(w: string, s: string)
    requires AllWhite(w)
    ensures TrimStart(w + s) == TrimStart(s)
  {
    if w == [] {
      assert w + s == s;
    } else {
      assert (w + s)[0] == w[0] && (w + s)[1..] == w[1..] + s;
      assert AllWhite(w[1..]) by {
        assert forall i :: 0 <= i < |w| - 1 ==> w[1..][i] == w[i + 1];
      }
      TrimStartAfterWhite(w[1..], s);
    }
  }

  /** Drops the trailing white space of `s`. */
  function TrimEnd(s: string): string
  {
    if s != [] && IsWhite(s[|s| - 1]) then TrimEnd(s[..|s| - 1]) else s
  }

  /** What `TrimEnd` drops is a white suffix, and what it keeps is the
      start of the string, ending with a character that is not white. */
  lemma {:induction false} TrimEndShape(s: string)
    ensures |TrimEnd(s)| <= |s| && TrimEnd(s) == s[..|TrimEnd(s)|]
    ensures AllWhite(s[|TrimEnd(s)|..])
    ensures TrimEnd(s) != [] ==> !IsWhite(TrimEnd(s)[|TrimEnd(s)| - 1])
  {
    if s != [] && IsWhite(s[|s| - 1]) {
      var r := TrimEnd(s[..|s| - 1]);
      TrimEndShape(s[..|s| - 1]);
      assert s[..|s| - 1][..|r|] == s[..|r|];
      assert forall i :: |r| <= i < |s| - 1 ==> s[i] == s[..|s| - 1][|r|..][i - |r|];
    }
  }

  /** `s.trim()`: the longest infix of `s` that neither starts nor ends
      with white space, obtained by dropping white space at both ends. */
  function Trim(s: string): (r: string)
    ensures |r| <= |s|
    ensures r != [] ==> !IsWhite(r[0]) && !IsWhite(r[|r| - 1])
    ensures var k := |s| - |TrimStart(s)|;
            0 <= k && k + |r| <= |s| && r == s[k..k + |r|] && AllWhite(s[..k]) && AllWhite(s[k + |r|..])
  {
    var t := TrimStart(s);
    TrimStartShape(s);
    TrimEndShape(t);
    var r := TrimEnd(t);
    var k := |s| - |t|;
    assert r != [] ==> r[0] == t[0];
    assert r == s[k..k + |r|];
    assert s[k + |r|..] == t[|r|..];
    r
  }

  /** `!s.trim()`: the trimmed string is empty, hence falsy. */
  predicate IsBlank(s: string)
  {
    Trim(s) == []
  }

  /** A string is blank exactly when every one of its characters is
      white space. */
  lemma BlankIffAllWhite(s: string)
    ensures IsBlank(s) <==> AllWhite(s)
  {
    var t := TrimStart(s);
    TrimStartShape(s);
    TrimEndShape(t);
    if !AllWhite(s) {
      var i :| 0 <= i < |s| && !IsWhite(s[i]);
      assert i >= |s| - |t| by {
        assert forall j :: 0 <= j < |s| - |t| ==> s[..|s| - |t|][j] == s[j];
      }
      assert t[i - (|s| - |t|)] == s[i];
    }
  }

  /** Trimming an already trimmed string changes nothing. */
  lemma TrimIdempotent(s: string)
    ensures Trim(Trim(s)) == Trim(s)
  {
    var r := Trim(s);
    if r != [] {
      assert TrimStart(r) == r;
      assert TrimEnd(r) == r;
    }
  }

  /** `s.trim() || undefined`: the trimmed text, or nothing when it is
      empty. */
  function TrimOrUndefined(s: string): (r: Option<string>)
    ensures r.None? <==> IsBlank(s)
    ensures r.Some? ==> r.value == Trim(s)
  {
    var t := Trim(s);
    if t == [] then None else Some(t)
  }

  /** What `s.trim() || undefined` hands on is never blank and is already
      trimmed, and the same text trimmed again gives the same answer. */
  lemma TrimOrUndefinedTrimmed(s: string)
    ensures TrimOrUndefined(s).Some? ==>
              !AllWhite(TrimOrUndefined(s).value) && Trim(TrimOrUndefined(s).value) == TrimOrUndefined(s).value
    ensures TrimOrUndefined(Trim(s)) == TrimOrUndefined(s)
  {
    var t := Trim(s);
    TrimIdempotent(s);
    assert Trim(t) == t;
    if t != [] {
      BlankIffAllWhite(t);
      assert !IsBlank(t);
    }
  }

  /** `message || fallback` for an optional message: an absent or empty
      message gives the fallback. */
  function MessageOr(message: Option<string>, fallback: string): (r: string)
    ensures r == fallback || (message == Some(r) && r != "")
    ensures message.Some? && message.value != "" ==> r == message.value
    ensures fallback != "" ==> r != ""
  {
    if message.Some? && message.value != "" then message.value else fallback
  }

  /** How an awaited request ended: a 2xx answer, a non-2xx answer with
      the `message` of its JSON body, or an exception (`Some` with the
      message of an `Error`, `None` for any other thrown value). */
  datatype Reply = Ok | Rejected(message: Option<string>) | Threw(error: Option<string>)

  /** The text a `catch (err)` block shows after
      `throw new Error(data.message || rejectedDefault)`:
      `err instanceof Error ? err.message : otherDefault`. */
  function CaughtMessage(reply: Reply, rejectedDefault: string, otherDefault: string): (r: string)
    requires !reply.Ok?
    ensures reply.Rejected? ==> r == MessageOr(reply.message, rejectedDefault)
    ensures reply.Threw? && reply.error.Some? ==> r == reply.error.value
    ensures reply == Threw(None) ==> r == otherDefault
  {
    match reply
    case Rejected(m) => MessageOr(m, rejectedDefault)
    case Threw(e) => if e.Some? then e.value else otherDefault
  }

  /** JavaScript truthiness of an optional number: `undefined` and `0`
      are falsy (NaN is not modelled). */
  predicate Truthy(d: Option<int>)
  {
    d.Some? && d.value != 0
  }

  /** `d || fallback` for an optional number. */
  function OrElse(d: Option<int>, fallback: int): (r: int)
    ensures Truthy(d) ==> r == d.value
    ensures !Truthy(d) ==> r == fallback
  {
    if d.Some? && d.value != 0 then d.value else fallback
  }

  /** `Math.round(t / n)` for integers with `n > 0`: the integer nearest to
      the exact quotient, halves rounded upwards. */
  function RoundQuotient(t: int, n: int): (r: int)
    requires n > 0
    ensures 2 * n * r <= 2 * t + n < 2 * n * r + 2 * n
  {
    var d := 2 * n;
    var r := (2 * t + n) / d;
    assert d * r <= 2 * t + n < d * r + d;
    r
  }

  /** A non-negative total divided into `n > 0` parts rounds to a value
      between zero and the total. */
  lemma RoundQuotientBounds(t: int, n: int)
    requires t >= 0 && n > 0
    ensures 0 <= RoundQuotient(t, n) <= t
  {
    var r := RoundQuotient(t, n);
    if r > t {
      assert 2 * n * r >= 2 * n * (t + 1) by {
        MulMonotone(2 * n, t + 1, r);
      }
      assert 2 * n * (t + 1) == 2 * n * t + 2 * n;
      MulMonotone(2 * t, 1, n);
    }
  }

  lemma MulMonotone(a: int, x: int, y: int)
    requires a >= 0 && x <= y
    ensures a * x <= a * y
  {
    assert a * y - a * x == a * (y - x);
  }
}
