/** The two otherName principal types of `subjectAltName` (certreader/parse.py:48-89):
    their OIDs and labels, and the text form `KRB5PrincipalName._decode_name` gives a
    Kerberos principal, which is the one of section 2.1.1 of RFC 1964. */
module Principal {
  import opened Wrappers
  import opened Text
  import opened Escaping

  const UpnOid: string := "1.3.6.1.4.1.311.20.2.3"
  const UpnLabel: string := "Universal Principal Name (UPN)"
  const KerberosOid: string := "1.3.6.1.5.2.2"
  const KerberosLabel: string := "Kerberos principalname"

  /** PrincipalName of section 5.2.2 of RFC 4120, as the DER decoder returns it. */
  datatype PrincipalName = PrincipalName(nameType: int, nameString: seq<string>)

  /** KRB5PrincipalName of section 3.2.2 of RFC 4556, as the DER decoder returns it. */
  datatype Krb5PrincipalName = Krb5PrincipalName(realm: string, principalName: PrincipalName)

  /** The characters escaped in a name component, and in the realm. */
  const NameSpecials: set<char> := {'\\', '/', '@'}
  const RealmSpecials: set<char> := {'\\', '@'}

  /** A name component: `\` doubled first, then `/` and `@` escaped. */
  function EscapeComponent(n: string): string {
    Replace(Replace(Replace(n, '\\', "\\\\"), '/', "\\/"), '@', "\\@")
  }

  /** The realm: `\` doubled first, then `@` escaped. */
  function EscapeRealm(r: string): string {
    Replace(Replace(r, '\\', "\\\\"), '@', "\\@")
  }

  function EscapedComponents(components: seq<string>): seq<string> {
    seq(|components|, i requires 0 <= i < |components| => EscapeComponent(components[i]))
  }

  /** The escaped components joined by `/`. */
  function NamePart(components: seq<string>): string {
    Join("/", EscapedComponents(components))
  }

  /** `"%s@%s" % (name, realm)` with both parts escaped. */
  function PrincipalText(components: seq<string>, realm: string): string {
    NamePart(components) + "@" + EscapeRealm(realm)
  }

  /** `KRB5PrincipalName._decode_name` once the DER decoding has produced `p`; the
      name-type is read by the decoder and not used. A principal with at least one
      name component can be read back from its text. */
  function DecodeName(p: Krb5PrincipalName): (r: string)
    ensures |p.principalName.nameString| >= 1 ==>
              ParsePrincipal(r) == Some((p.principalName.nameString, p.realm))
    ensures |p.principalName.nameString| == 0 ==> r == "@" + EscapeRealm(p.realm)
  {
    var text := PrincipalText(p.principalName.nameString, p.realm);
    if |p.principalName.nameString| >= 1 then
      ParseRender(p.principalName.nameString, p.realm); text
    else
      EmptyNameParts(p.realm); text
  }

  /** The reader's side: split at the first unescaped `@`, split the name part at its
      unescaped `/`, and unescape every piece. */
  function ParsePrincipal(s: string): Option<(seq<string>, string)> {
    var halves := SplitAt(s, '@');
    if |halves| != 2 then None
    else match (UnescapeAll(SplitAt(halves[0], '/'), NameSpecials), Unescape(halves[1], RealmSpecials))
      case (Some(components), Some(realm)) => Some((components, realm))
      case _ => None
  }

  function UnescapeAll(parts: seq<string>, specials: set<char>): Option<seq<string>>
    decreases |parts|
  {
    if parts == [] then Some([])
    else match (Unescape(parts[0], specials), UnescapeAll(parts[1..], specials))
      case (Some(x), Some(xs)) => Some([x] + xs)
      case _ => None
  }

  lemma EscapeComponentAppend(a: string, b: string)
    ensures EscapeComponent(a + b) == EscapeComponent(a) + EscapeComponent(b)
  {
    var a1, b1 := Replace(a, '\\', "\\\\"), Replace(b, '\\', "\\\\");
    ReplaceAppend(a, b, '\\', "\\\\");
    var a2, b2 := Replace(a1, '/', "\\/"), Replace(b1, '/', "\\/");
    ReplaceAppend(a1, b1, '/', "\\/");
    ReplaceAppend(a2, b2, '@', "\\@");
  }

  lemma EscapeRealmAppend(a: string, b: string)
    ensures EscapeRealm(a + b) == EscapeRealm(a) + EscapeRealm(b)
  {
    var a1, b1 := Replace(a, '\\', "\\\\"), Replace(b, '\\', "\\\\");
    ReplaceAppend(a, b, '\\', "\\\\");
    ReplaceAppend(a1, b1, '@', "\\@");
  }

  /** The replace chain, backslash first, escapes every special character exactly once:
      it is the single-pass escaping. */
  lemma {:induction false} EscapeComponentSinglePass(n: string)
    ensures EscapeComponent(n) == Escape(n, NameSpecials)
    decreases |n|
  {
    if n != [] {
      var c := n[0];
      assert n == [c] + n[1..];
      EscapeComponentAppend([c], n[1..]);
      EscapeComponentSinglePass(n[1..]);
      var s1 := Replace([c], '\\', "\\\\");
      ReplaceOne(c, '\\', "\\\\");
      var s2 := Replace(s1, '/', "\\/");
      if c == '\\' {
        assert s1 == [Backslash, Backslash];
        ReplaceAbsent(s1, '/', "\\/");
        ReplaceAbsent(s2, '@', "\\@");
      } else if c == '/' {
        ReplaceOne(c, '/', "\\/");
        assert s2 == [Backslash, '/'];
        ReplaceAbsent(s2, '@', "\\@");
      } else if c == '@' {
        ReplaceAbsent(s1, '/', "\\/");
      } else {
        ReplaceAbsent(s1, '/', "\\/");
      }
    }
  }

  /** Likewise for the realm. */
  lemma {:induction false} EscapeRealmSinglePass(r: string)
    ensures EscapeRealm(r) == Escape(r, RealmSpecials)
    decreases |r|
  {
    if r != [] {
      var c := r[0];
      assert r == [c] + r[1..];
      EscapeRealmAppend([c], r[1..]);
      EscapeRealmSinglePass(r[1..]);
      ReplaceOne(c, '\\', "\\\\");
      if c == '\\' {
        assert Replace([c], '\\', "\\\\") == [Backslash, Backslash];
        ReplaceAbsent(Replace([c], '\\', "\\\\"), '@', "\\@");
      }
    }
  }

  /** No unescaped `@` survives in the name part. */
  lemma {:induction false} NamePartNoBareAt(components: seq<string>)
    ensures NoBare(NamePart(components), '@')
    decreases |components|
  {
    var parts := EscapedComponents(components);
    if |components| >= 1 {
      EscapeComponentSinglePass(components[0]);
      EscapeNoBare(components[0], NameSpecials, '@');
    }
    if |components| >= 2 {
      var rest := components[1..];
      assert parts[1..] == EscapedComponents(rest);
      NamePartNoBareAt(rest);
      assert NoBare("/", '@');
      NoBareAppend(parts[0], "/", '@');
      NoBareAppend(parts[0] + "/", NamePart(rest), '@');
    }
  }

  /** The text has exactly one unescaped `@`: before it the escaped name part, after it
      the escaped realm. */
  lemma PrincipalTextSplitsOnce(components: seq<string>, realm: string)
    ensures SplitAt(PrincipalText(components, realm), '@') == [NamePart(components), EscapeRealm(realm)]
  {
    var n, r := NamePart(components), EscapeRealm(realm);
    NamePartNoBareAt(components);
    EscapeRealmSinglePass(realm);
    EscapeNoBare(realm, RealmSpecials, '@');
    assert n + "@" + r == n + ("@" + r);
    SplitAfterNoBare(n, "@" + r, '@');
    assert ("@" + r)[1..] == r;
    assert SplitAt("@" + r, '@') == [[]] + SplitAt(r, '@');
    SplitAfterNoBare(r, [], '@');
    assert r + [] == r;
    assert n + [] == n;
  }

  /** Splitting the name part at its unescaped `/` gives the escaped components. */
  lemma {:induction false} NamePartSplit(components: seq<string>)
    requires |components| >= 1
    ensures SplitAt(NamePart(components), '/') == EscapedComponents(components)
    decreases |components|
  {
    var parts := EscapedComponents(components);
    EscapeComponentSinglePass(components[0]);
    EscapeNoBare(components[0], NameSpecials, '/');
    if |components| == 1 {
      SplitAfterNoBare(parts[0], [], '/');
      assert parts[0] + [] == parts[0];
      assert parts == [parts[0]];
    } else {
      var rest := components[1..];
      assert parts[1..] == EscapedComponents(rest);
      NamePartSplit(rest);
      assert NamePart(components) == parts[0] + ("/" + NamePart(rest));
      SplitAfterNoBare(parts[0], "/" + NamePart(rest), '/');
      assert ("/" + NamePart(rest))[1..] == NamePart(rest);
      assert SplitAt("/" + NamePart(rest), '/') == [[]] + SplitAt(NamePart(rest), '/');
      assert parts[0] + [] == parts[0];
      assert parts == [parts[0]] + parts[1..];
    }
  }

  lemma {:induction false} UnescapeAllEscaped(components: seq<string>)
    ensures UnescapeAll(EscapedComponents(components), NameSpecials) == Some(components)
    decreases |components|
  {
    if components != [] {
      var parts := EscapedComponents(components);
      EscapeComponentSinglePass(components[0]);
      UnescapeEscape(components[0], NameSpecials);
      assert parts[1..] == EscapedComponents(components[1..]);
      UnescapeAllEscaped(components[1..]);
      assert [components[0]] + components[1..] == components;
    }
  }

  /** What `UnescapeAll` accepts is the escaping of what it returns, piece by piece. */
  lemma {:induction false} EscapedUnescapeAll(parts: seq<string>)
    ensures UnescapeAll(parts, NameSpecials).Some? ==>
              EscapedComponents(UnescapeAll(parts, NameSpecials).value) == parts
    decreases |parts|
  {
    if parts != [] && UnescapeAll(parts, NameSpecials).Some? {
      var components := UnescapeAll(parts, NameSpecials).value;
      EscapedUnescapeAll(parts[1..]);
      EscapeUnescape(parts[0], NameSpecials);
      EscapeComponentSinglePass(components[0]);
      assert components[1..] == UnescapeAll(parts[1..], NameSpecials).value;
      assert EscapedComponents(components)[1..] == EscapedComponents(components[1..]);
      assert parts == [parts[0]] + parts[1..];
    }
  }

  /** Round trip: the text of a principal with at least one name component reads back
      as that principal. */
  lemma ParseRender(components: seq<string>, realm: string)
    requires |components| >= 1
    ensures ParsePrincipal(PrincipalText(components, realm)) == Some((components, realm))
  {
    PrincipalTextSplitsOnce(components, realm);
    NamePartSplit(components);
    UnescapeAllEscaped(components);
    EscapeRealmSinglePass(realm);
    UnescapeEscape(realm, RealmSpecials);
  }

  /** The other direction: every text the reader accepts is the rendering of what it
      reads, and names at least one component. */
  lemma RenderParse(s: string)
    ensures ParsePrincipal(s).Some? ==>
              |ParsePrincipal(s).value.0| >= 1 &&
              PrincipalText(ParsePrincipal(s).value.0, ParsePrincipal(s).value.1) == s
  {
    if ParsePrincipal(s).Some? {
      var (components, realm) := ParsePrincipal(s).value;
      var halves := SplitAt(s, '@');
      JoinSplitAt(s, '@');
      assert s == halves[0] + "@" + halves[1];
      var raw := SplitAt(halves[0], '/');
      JoinSplitAt(halves[0], '/');
      EscapedUnescapeAll(raw);
      EscapeUnescape(halves[1], RealmSpecials);
      EscapeRealmSinglePass(realm);
      assert |EscapedComponents(components)| == |raw|;
    }
  }

  /** Distinct principals with at least one name component render differently; in
      particular a component holding `\@` and one holding `@` do. */
  lemma PrincipalTextInjective(c1: seq<string>, r1: string, c2: seq<string>, r2: string)
    requires |c1| >= 1 && |c2| >= 1
    requires PrincipalText(c1, r1) == PrincipalText(c2, r2)
    ensures c1 == c2 && r1 == r2
  {
    ParseRender(c1, r1);
    ParseRender(c2, r2);
  }

  /** The edge case the round trip excludes: no components and one empty component
      render the same empty name part. */
  lemma EmptyNameParts(realm: string)
    ensures PrincipalText([], realm) == PrincipalText([""], realm) == "@" + EscapeRealm(realm)
  {
    assert EscapedComponents([""]) == [EscapeComponent("")];
  }
}
