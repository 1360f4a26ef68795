/** The backslash escaping convention of Kerberos principal text: the writer's side
    (`str.replace` chains and the single pass they amount to) and the reader's side
    (splitting at unescaped delimiters and removing escapes). */
module Escaping {
  import opened Wrappers
  import opened Text

  const Backslash: char := '\\'

  /** `s.replace(c, repl)` for a one-character pattern: every `c` becomes `repl`. */
  function Replace(s: string, c: char, repl: string): string
    decreases |s|
  {
    if s == [] then [] else (if s[0] == c then repl else [s[0]]) + Replace(s[1..], c, repl)
  }

  lemma {:induction false} ReplaceAppend(a: string, b: string, c: char, repl: string)
    ensures Replace(a + b, c, repl) == Replace(a, c, repl) + Replace(b, c, repl)
    decreases |a|
  {
    if a == [] {
      assert a + b == b;
    } else {
      assert (a + b)[1..] == a[1..] + b;
      ReplaceAppend(a[1..], b, c, repl);
    }
  }

  lemma ReplaceOne(x: char, c: char, repl: string)
    ensures Replace([x], c, repl) == if x == c then repl else [x]
  {
    assert [x][1..] == [];
  }

  /** Replacing a character that does not occur changes nothing. */
  lemma {:induction false} ReplaceAbsent(s: string, c: char, repl: string)
    requires c !in s
    ensures Replace(s, c, repl) == s
    decreases |s|
  {
    if s != [] {
      assert s[0] != c;
      ReplaceAbsent(s[1..], c, repl);
      assert [s[0]] + s[1..] == s;
    }
  }

  /** One pass over `s` putting a backslash in front of every character of `specials`. */
  function Escape(s: string, specials: set<char>): string
    decreases |s|
  {
    if s == [] then [] else (if s[0] in specials then [Backslash, s[0]] else [s[0]]) + Escape(s[1..], specials)
  }

  lemma {:induction false} EscapeAppend(a: string, b: string, specials: set<char>)
    ensures Escape(a + b, specials) == Escape(a, specials) + Escape(b, specials)
    decreases |a|
  {
    if a == [] {
      assert a + b == b;
    } else {
      assert (a + b)[1..] == a[1..] + b;
      EscapeAppend(a[1..], b, specials);
    }
  }

  /** Removes the escapes of `Escape(_, specials)`; fails on a dangling backslash, on an
      escaped character outside `specials` and on a bare character of `specials`. */
  function Unescape(s: string, specials: set<char>): Option<string>
    decreases |s|
  {
    if s == [] then Some([])
    else if s[0] == Backslash then
      if |s| >= 2 && s[1] in specials then
        (match Unescape(s[2..], specials) case Some(t) => Some([s[1]] + t) case None => None)
      else None
    else if s[0] in specials then None
    else (match Unescape(s[1..], specials) case Some(t) => Some([s[0]] + t) case None => None)
  }

  /** Unescaping undoes escaping, provided the backslash itself is escaped. */
  lemma {:induction false} UnescapeEscape(s: string, specials: set<char>)
    requires Backslash in specials
    ensures Unescape(Escape(s, specials), specials) == Some(s)
    decreases |s|
  {
    if s != [] {
      var e := Escape(s, specials);
      UnescapeEscape(s[1..], specials);
      if s[0] in specials {
        assert e == [Backslash, s[0]] + Escape(s[1..], specials);
        assert e[2..] == Escape(s[1..], specials);
      } else {
        assert e == [s[0]] + Escape(s[1..], specials);
        assert e[1..] == Escape(s[1..], specials);
      }
      assert [s[0]] + s[1..] == s;
    }
  }

  /** Whatever `Unescape` accepts is exactly the escaping of what it returns. */
  lemma {:induction false} EscapeUnescape(e: string, specials: set<char>)
    requires Backslash in specials
    ensures Unescape(e, specials).Some? ==> Escape(Unescape(e, specials).value, specials) == e
    decreases |e|
  {
    if e != [] && Unescape(e, specials).Some? {
      var s := Unescape(e, specials).value;
      if e[0] == Backslash {
        EscapeUnescape(e[2..], specials);
        assert s[1..] == Unescape(e[2..], specials).value;
        assert e == [Backslash, e[1]] + e[2..];
      } else {
        EscapeUnescape(e[1..], specials);
        assert s[1..] == Unescape(e[1..], specials).value;
        assert e == [e[0]] + e[1..];
      }
    }
  }

  /** `s` is a run of escape pairs (a backslash and any character) and plain characters
      other than the backslash and `d`: no `d` in `s` is left unescaped. */
  predicate NoBare(s: string, d: char)
    decreases |s|
  {
    if s == [] then true
    else if s[0] == Backslash then |s| >= 2 && NoBare(s[2..], d)
    else s[0] != d && NoBare(s[1..], d)
  }

  lemma {:induction false} NoBareAppend(a: string, b: string, d: char)
    requires NoBare(a, d) && NoBare(b, d)
    ensures NoBare(a + b, d)
    decreases |a|
  {
    if a == [] {
      assert a + b == b;
    } else {
      assert (a + b)[0] == a[0];
      if a[0] == Backslash {
        assert (a + b)[2..] == a[2..] + b;
        NoBareAppend(a[2..], b, d);
      } else {
        assert (a + b)[1..] == a[1..] + b;
        NoBareAppend(a[1..], b, d);
      }
    }
  }

  /** Escaping leaves no character of `specials` bare. */
  lemma {:induction false} EscapeNoBare(s: string, specials: set<char>, d: char)
    requires Backslash in specials && d in specials
    ensures NoBare(Escape(s, specials), d)
    decreases |s|
  {
    if s != [] {
      var e := Escape(s, specials);
      EscapeNoBare(s[1..], specials, d);
      if s[0] in specials {
        assert e[2..] == Escape(s[1..], specials);
      } else {
        assert e[1..] == Escape(s[1..], specials);
      }
    }
  }

  /** The pieces of `s` between its unescaped `d`s; the pieces keep their escapes. */
  function SplitAt(s: string, d: char): (parts: seq<string>)
    ensures |parts| >= 1
    decreases |s|
  {
    if s == [] then [[]]
    else if s[0] == Backslash && |s| >= 2 then
      var p := SplitAt(s[2..], d);
      [s[..2] + p[0]] + p[1..]
    else if s[0] == d then [[]] + SplitAt(s[1..], d)
    else
      var p := SplitAt(s[1..], d);
      [[s[0]] + p[0]] + p[1..]
  }

  /** A prefix with no bare `d` is absorbed into the first piece. */
  lemma {:induction false} SplitAfterNoBare(s: string, t: string, d: char)
    requires NoBare(s, d)
    ensures SplitAt(s + t, d) == [s + SplitAt(t, d)[0]] + SplitAt(t, d)[1..]
    decreases |s|
  {
    if s == [] {
      var p := SplitAt(t, d);
      assert s + t == t && s + p[0] == p[0];
      assert [p[0]] + p[1..] == p;
    } else {
      assert (s + t)[0] == s[0];
      if s[0] == Backslash {
        assert (s + t)[2..] == s[2..] + t;
        assert (s + t)[..2] == s[..2];
        SplitAfterNoBare(s[2..], t, d);
        assert s[..2] + (s[2..] + SplitAt(t, d)[0]) == s + SplitAt(t, d)[0];
      } else {
        assert (s + t)[1..] == s[1..] + t;
        SplitAfterNoBare(s[1..], t, d);
        assert [s[0]] + (s[1..] + SplitAt(t, d)[0]) == s + SplitAt(t, d)[0];
      }
    }
  }

  /** Splitting loses nothing: joining the pieces with `d` gives `s` back. */
  lemma {:induction false} JoinSplitAt(s: string, d: char)
    ensures Join([d], SplitAt(s, d)) == s
    decreases |s|
  {
    if s != [] {
      if s[0] == Backslash && |s| >= 2 {
        var p := SplitAt(s[2..], d);
        JoinSplitAt(s[2..], d);
        JoinHead(s[..2], p, [d]);
        assert s[..2] + s[2..] == s;
      } else if s[0] == d {
        var p := SplitAt(s[1..], d);
        JoinSplitAt(s[1..], d);
        assert Join([d], [[]] + p) == [] + [d] + Join([d], p);
        assert [d] + s[1..] == s;
      } else {
        var p := SplitAt(s[1..], d);
        JoinSplitAt(s[1..], d);
        JoinHead([s[0]], p, [d]);
        assert [s[0]] + s[1..] == s;
      }
    }
  }

  /** Prepending text to the first part prepends it to the joined string. */
  lemma JoinHead(h: string, p: seq<string>, sep: string)
    requires |p| >= 1
    ensures Join(sep, [h + p[0]] + p[1..]) == h + Join(sep, p)
  {
    var q := [h + p[0]] + p[1..];
    if |p| >= 2 {
      assert q[1..] == p[1..];
    }
  }
}
