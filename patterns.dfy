/** The string rules of the registry: `escape`, the pattern each leaf reducer
    tests action types against, and the action type `reduce` builds. */
module Patterns {
  import opened Values

  // ---------------------------------------------------------------------------
  // escape

  /** The characters `escape` prefixes with a backslash. */
  const MetaChars: string := "-[]/{}()*+?.\\^$|"

  predicate IsMeta(c: char) {
    c in MetaChars
  }

  /** The replacement `'\\$&'` applied to one character. */
  function EscapeChar(c: char): string {
    if IsMeta(c) then ['\\', c] else [c]
  }

  /** `string.replace(/[\-\[\]\/\{\}\(\)\*\+\?\.\\\^\$\|]/g, '\\$&')`. */
  function Escape(s: string): string {
    if s == [] then [] else EscapeChar(s[0]) + Escape(s[1..])
  }

  function MetaCount(s: string): nat {
    if s == [] then 0 else (if IsMeta(s[0]) then 1 else 0) + MetaCount(s[1..])
  }

  /** Escaping works character by character. */
  lemma {:induction false} EscapeAppend(a: string, b: string)
    ensures Escape(a + b) == Escape(a) + Escape(b)
  {
    if a != [] {
      assert (a + b)[0] == a[0];
      assert (a + b)[1..] == a[1..] + b;
      EscapeAppend(a[1..], b);
      calc {
        Escape(a + b);
        EscapeChar(a[0]) + Escape(a[1..] + b);
        EscapeChar(a[0]) + (Escape(a[1..]) + Escape(b));
        (EscapeChar(a[0]) + Escape(a[1..])) + Escape(b);
      }
    } else {
      assert a + b == b;
    }
  }

  /** One backslash per metacharacter, nothing else added. */
  lemma {:induction false} EscapeLength(s: string)
    ensures |Escape(s)| == |s| + MetaCount(s)
  {
    if s != [] {
      EscapeLength(s[1..]);
    }
  }

  /** A string free of metacharacters is its own escape. */
  lemma {:induction false} EscapePlain(s: string)
    requires forall i :: 0 <= i < |s| ==> !IsMeta(s[i])
    ensures Escape(s) == s
  {
    if s != [] {
      EscapePlain(s[1..]);
    }
  }

  function Prepend(c: char, rest: Option<string>): Option<string> {
    if rest.Some? then Some([c] + rest.value) else None
  }

  /** The text a regular-expression source matches, when that source is a plain
      literal: each character is either not a metacharacter, or a backslash
      followed by a metacharacter. Any other source yields `None`. */
  function LiteralText(p: string): Option<string>
    decreases |p|
  {
    if p == [] then Some([])
    else if p[0] == '\\' then
      if |p| >= 2 && IsMeta(p[1]) then Prepend(p[1], LiteralText(p[2..])) else None
    else if IsMeta(p[0]) then None
    else Prepend(p[0], LiteralText(p[1..]))
  }

  /** Removing the inserted backslashes recovers the input: the escaped string,
      read as a pattern, matches exactly the original text. */
  lemma {:induction false} LiteralTextOfEscape(s: string)
    ensures LiteralText(Escape(s)) == Some(s)
  {
    if s != [] {
      LiteralTextOfEscape(s[1..]);
      var e := Escape(s);
      assert e == EscapeChar(s[0]) + Escape(s[1..]);
      if IsMeta(s[0]) {
        assert e[0] == '\\' && e[1] == s[0] && e[2..] == Escape(s[1..]);
      } else {
        assert e[0] == s[0] && e[1..] == Escape(s[1..]);
      }
      assert [s[0]] + s[1..] == s;
    }
  }

  /** Two namespaces never escape to the same pattern text. */
  lemma EscapeInjective(a: string, b: string)
    ensures Escape(a) == Escape(b) ==> a == b
  {
    LiteralTextOfEscape(a);
    LiteralTextOfEscape(b);
  }

  // ---------------------------------------------------------------------------
  // The leaf pattern `^event:${escape(ns)}(?::.+)?$`

  const EventPrefix: string := "event:"
  const PatternTail: string := "(?::.+)?$"

  /** The source text of the regular expression a leaf for `ns` builds. */
  function LeafPatternSource(ns: string): string {
    "^" + EventPrefix + Escape(ns) + PatternTail
  }

  /** Reads a source of the shape `^L(?::.+)?$` with `L` a plain literal and
      returns the text `L` matches. */
  function PatternLiteral(src: string): Option<string> {
    if |src| >= 1 + |PatternTail| && src[0] == '^' && src[|src| - |PatternTail|..] == PatternTail
    then LiteralText(src[1..|src| - |PatternTail|])
    else None
  }

  /** JavaScript's line terminators, the characters `.` does not match
      without the `s` flag. */
  predicate IsLineTerminator(c: char) {
    c == '\n' || c == '\r' || c == '\U{2028}' || c == '\U{2029}'
  }

  predicate NoLineTerminator(s: string) {
    forall i :: 0 <= i < |s| ==> !IsLineTerminator(s[i])
  }

  /** `^lit(?::.+)?$` tested against `t`, for a literal `lit`. */
  predicate MatchesEventPattern(lit: string, t: string) {
    || t == lit
    || (&& |t| > |lit| + 1
        && t[..|lit|] == lit
        && t[|lit|] == ':'
        && NoLineTerminator(t[|lit| + 1..]))
  }

  /** The test a leaf reducer for `ns` applies to `action.type`. */
  predicate LeafAccepts(ns: string, t: string) {
    match PatternLiteral(LeafPatternSource(ns))
    case Some(lit) => MatchesEventPattern(lit, t)
    case None => false
  }

  /** Independent statement of which types are addressed to `ns`: exactly
      `event:ns`, or `event:ns:` followed by a non-empty label free of line
      terminators. */
  ghost predicate AddressedTo(ns: string, t: string) {
    || t == EventPrefix + ns
    || exists r :: r != [] && NoLineTerminator(r) && t == EventPrefix + ns + ":" + r
  }

  /** The constructed pattern matches `ns` literally, metacharacters included. */
  lemma LeafPatternLiteral(ns: string)
    ensures PatternLiteral(LeafPatternSource(ns)) == Some(EventPrefix + ns)
  {
    var src := LeafPatternSource(ns);
    var mid := EventPrefix + Escape(ns);
    assert src == "^" + mid + PatternTail;
    assert src[|src| - |PatternTail|..] == PatternTail;
    assert src[1..|src| - |PatternTail|] == mid;
    EscapePlain(EventPrefix);
    EscapeAppend(EventPrefix, ns);
    LiteralTextOfEscape(EventPrefix + ns);
  }

  lemma LeafAcceptsAddressed(ns: string, t: string)
    ensures LeafAccepts(ns, t) <==> AddressedTo(ns, t)
  {
    LeafPatternLiteral(ns);
    var lit := EventPrefix + ns;
    if LeafAccepts(ns, t) && t != lit {
      var r := t[|lit| + 1..];
      assert t == lit + ":" + r;
    }
    if AddressedTo(ns, t) && t != lit {
      var r :| r != [] && NoLineTerminator(r) && t == lit + ":" + r;
      assert t[..|lit|] == lit;
      assert t[|lit|] == ':';
      assert t[|lit| + 1..] == r;
    }
  }

  /** A type that does not start with `event:` is accepted by no leaf. */
  lemma LeafRejectsForeign(ns: string, t: string)
    requires |t| < |EventPrefix| || t[..|EventPrefix|] != EventPrefix
    ensures !LeafAccepts(ns, t)
  {
    LeafAcceptsAddressed(ns, t);
    assert (EventPrefix + ns)[..|EventPrefix|] == EventPrefix;
    forall r
      ensures |EventPrefix + ns + ":" + r| >= |EventPrefix|
      ensures (EventPrefix + ns + ":" + r)[..|EventPrefix|] == EventPrefix
    {
      assert EventPrefix + ns + ":" + r == EventPrefix + (ns + ":" + r);
    }
  }

  // ---------------------------------------------------------------------------
  // The action type `event:${this.namespace}:${event || '$generic'}`

  const Generic: string := "$generic"

  /** `event || '$generic'` for a string-or-undefined event name. */
  function EventLabel(event: Option<string>): string
  {
    if event.Some? && event.value != "" then event.value else Generic
  }

  function ActionType(ns: string, event: Option<string>): string {
    EventPrefix + ns + ":" + EventLabel(event)
  }

  /** A namespace's own actions reach its leaf exactly when the label holds no
      line terminator. */
  lemma SelfMatch(ns: string, event: Option<string>)
    ensures LeafAccepts(ns, ActionType(ns, event)) <==> NoLineTerminator(EventLabel(event))
  {
    var lit := EventPrefix + ns;
    var t := ActionType(ns, event);
    var text := EventLabel(event);
    LeafPatternLiteral(ns);
    assert t == lit + ":" + text;
    assert t[..|lit|] == lit && t[|lit|] == ':' && t[|lit| + 1..] == text;
  }

  /** Position of the first colon in `s`, or `|s|` when there is none. */
  function ColonIndex(s: string): nat {
    if s == [] || s[0] == ':' then 0 else 1 + ColonIndex(s[1..])
  }

  lemma {:induction false} ColonIndexAppend(x: string, w: string)
    requires ':' !in x
    ensures ColonIndex(x + w) == |x| + ColonIndex(w)
  {
    if x != [] {
      assert (x + w)[0] == x[0];
      assert (x + w)[1..] == x[1..] + w;
      ColonIndexAppend(x[1..], w);
    } else {
      assert x + w == w;
    }
  }

  lemma PrefixCancel(p: string, x: string, y: string)
    ensures p + x == p + y ==> x == y
  {
    assert (p + x)[|p|..] == x;
    assert (p + y)[|p|..] == y;
  }

  /** The first colon splits `x + ":" + u` right after `x`, when `x` holds
      none. */
  lemma ColonSplit(x: string, u: string, y: string, v: string)
    requires ':' !in x && ':' !in y
    ensures x + ":" + u == y + ":" + v ==> x == y
  {
    assert x + ":" + u == x + (":" + u);
    assert y + ":" + v == y + (":" + v);
    ColonIndexAppend(x, ":" + u);
    ColonIndexAppend(y, ":" + v);
    assert (x + ":" + u)[..|x|] == x;
    assert (y + ":" + v)[..|y|] == y;
  }

  /** The leaf of another namespace rejects the action, when neither
      namespace contains a colon: parent and child (`tests`, `tests.foo`) and
      prefix pairs (`a`, `ab`) are isolated. */
  lemma Isolation(a: string, b: string, event: Option<string>)
    requires a != b && ':' !in a && ':' !in b
    ensures !LeafAccepts(b, ActionType(a, event))
  {
    var t := ActionType(a, event);
    var text := EventLabel(event);
    var rest := a + ":" + text;
    assert t == EventPrefix + rest;
    LeafAcceptsAddressed(b, t);
    // not `event:b` exactly: `rest` has a colon at |a|, `b` has none
    PrefixCancel(EventPrefix, rest, b);
    assert rest == a + (":" + text);
    ColonIndexAppend(a, ":" + text);
    assert b + [] == b;
    ColonIndexAppend(b, []);
    // nor `event:b:r`: the first colon would put `a` and `b` equal
    forall r
      ensures t != EventPrefix + b + ":" + r
    {
      assert EventPrefix + b + ":" + r == EventPrefix + (b + ":" + r);
      PrefixCancel(EventPrefix, rest, b + ":" + r);
      ColonSplit(a, text, b, r);
    }
  }

  /** Without the colon condition isolation fails: the leaf for `a` accepts
      the generic action of namespace `a:b`. */
  lemma ColonNamespacesCollide()
    ensures LeafAccepts("a", ActionType("a:b", None))
  {
    var t := ActionType("a:b", None);
    var r := "b:" + Generic;
    assert t == EventPrefix + "a" + ":" + r;
    assert NoLineTerminator(r);
    LeafAcceptsAddressed("a", t);
  }
}
