/** JavaScript string conventions the text builders rely on. */
module JsText {
  import opened Wrappers

  /** A value that is a string or null, as read from a nullable TEXT column. */
  type Text = Option<string>

  /** Template-literal interpolation `${t}`: null prints as "null". */
  function Show(t: Text): string
  {
    match t
    case None => "null"
    case Some(s) => s
  }

  /** JavaScript truthiness of a string-or-null: null and "" are falsy. */
  predicate Truthy(t: Text)
  {
    t.Some? && t.value != ""
  }

  /** The characters `\s` matches and `String.prototype.trim` removes
      (WhiteSpace and LineTerminator of ECMAScript). */
  predicate IsSpace(c: char)
  {
    || c == '\t' || c == '\n' || c == '\U{B}' || c == '\U{C}' || c == '\r' || c == ' '
    || c == '\U{A0}' || c == '\U{1680}' || ('\U{2000}' <= c <= '\U{200A}')
    || c == '\U{2028}' || c == '\U{2029}' || c == '\U{202F}' || c == '\U{205F}'
    || c == '\U{3000}' || c == '\U{FEFF}'
  }

  /** `parts.join(sep)`. */
  function Join(parts: seq<string>, sep: string): string
  {
    if parts == [] then ""
    else if |parts| == 1 then parts[0]
    else parts[0] + sep + Join(parts[1..], sep)
  }

  /** `(t || "")`: the string itself, or "" for a falsy value. */
  function OrEmpty(t: Text): string
  {
    if Truthy(t) then t.value else ""
  }

  /** `(s || "")` is `s` for every string, the empty one included. */
  lemma OrEmptySome(s: string)
    ensures OrEmpty(Some(s)) == s
  {
  }

  /** `s.trimStart()`: the longest prefix of `s` made of whitespace, removed. */
  function TrimStart(s: string): (r: string)
    ensures |r| <= |s| && r == s[|s| - |r|..]
    ensures r == [] || !IsSpace(r[0])
    ensures forall i :: 0 <= i < |s| - |r| ==> IsSpace(s[i])
  {
    if s != [] && IsSpace(s[0]) then TrimStart(s[1..]) else s
  }

  /** `s.trimEnd()`: the longest suffix of `s` made of whitespace, removed. */
  function TrimEnd(s: string): (r: string)
    ensures |r| <= |s| && r == s[..|r|]
    ensures r == [] || !IsSpace(r[|r| - 1])
    ensures forall i :: |r| <= i < |s| ==> IsSpace(s[i])
  {
    if s != [] && IsSpace(s[|s| - 1]) then TrimEnd(s[..|s| - 1]) else s
  }

  /** `s.trim()`. */
  function Trim(s: string): string
  {
    TrimEnd(TrimStart(s))
  }

  predicate AllSpace(w: string)
  {
    forall i :: 0 <= i < |w| ==> IsSpace(w[i])
  }

  lemma {:induction false} TrimStartRun(w: string, t: string)
    requires AllSpace(w)
    requires t == [] || !IsSpace(t[0])
    ensures TrimStart(w + t) == t
  {
    if w == [] {
      assert w + t == t;
    } else {
      assert (w + t)[1..] == w[1..] + t;
      TrimStartRun(w[1..], t);
    }
  }

  /** Leading whitespace does not survive trimStart. */
  lemma {:induction false} TrimStartPrefix(w: string, s: string)
    requires AllSpace(w)
    ensures TrimStart(w + s) == TrimStart(s)
  {
    if w == [] {
      assert w + s == s;
    } else {
      assert (w + s)[1..] == w[1..] + s;
      TrimStartPrefix(w[1..], s);
    }
  }

  /** Trailing whitespace does not survive trimEnd. */
  lemma {:induction false} TrimEndSuffix(s: string, w: string)
    requires AllSpace(w)
    ensures TrimEnd(s + w) == TrimEnd(s)
  {
    if w == [] {
      assert s + w == s;
    } else {
      assert (s + w)[..|s + w| - 1] == s + w[..|w| - 1];
      TrimEndSuffix(s, w[..|w| - 1]);
    }
  }

  /** Once trimStart stops at a visible character, what follows is kept as it is. */
  lemma {:induction false} TrimStartAppend(x: string, y: string)
    requires TrimStart(x) != []
    ensures TrimStart(x + y) == TrimStart(x) + y
  {
    assert (x + y)[0] == x[0];
    if IsSpace(x[0]) {
      assert TrimStart(x) == TrimStart(x[1..]);
      assert (x + y)[1..] == x[1..] + y;
      TrimStartAppend(x[1..], y);
      assert TrimStart(x + y) == TrimStart(x[1..] + y);
    } else {
      assert TrimStart(x) == x;
      assert TrimStart(x + y) == x + y;
    }
  }

  /** trim ignores padding of whitespace on either side. */
  lemma TrimPadding(w1: string, x: string, w2: string)
    requires AllSpace(w1) && AllSpace(w2)
    ensures Trim(w1 + x + w2) == Trim(x)
  {
    assert w1 + x + w2 == w1 + (x + w2);
    TrimStartPrefix(w1, x + w2);
    if TrimStart(x) == [] {
      assert AllSpace(x + w2) by {
        forall i | 0 <= i < |x + w2| ensures IsSpace((x + w2)[i]) {
          if i >= |x| { assert (x + w2)[i] == w2[i - |x|]; }
        }
      }
      TrimStartRun(x + w2, []);
      assert x + w2 + [] == x + w2;
    } else {
      TrimStartAppend(x, w2);
      TrimEndSuffix(TrimStart(x), w2);
    }
  }

  /** trim leaves exactly the blank strings empty. */
  lemma TrimEmptyIff(s: string)
    ensures Trim(s) == [] <==> AllSpace(s)
  {
    if AllSpace(s) {
      TrimStartRun(s, []);
      assert s + [] == s;
    }
  }
}
