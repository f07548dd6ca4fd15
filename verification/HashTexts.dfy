/** Exactly which texts the password-hash parser accepts, and as what (parseHash in
    packages/auth/auth.go). */
module HashTexts {
  import opened Options
  import opened Decimal
  import opened Strings
  import opened PasswordHash

  // The text is a nonempty numeral for n, with or without what may stand before it.
  ghost predicate SaysWith(text: string, prefix: string, digits: string, n: nat) {
    digits != "" && Digits(digits) && Value(digits) == n && (text == prefix + digits || text == digits)
  }

  ghost predicate Says(text: string, prefix: string, n: nat) {
    exists digits :: SaysWith(text, prefix, digits, n)
  }

  // The version is read as a signed number, so it may have a plus sign.
  ghost predicate SaysVersion(text: string) {
    Says(text, "v=", 19) || exists signed :: |signed| > 0 && signed[0] == '+' && Signed(text, signed)
  }

  ghost predicate Signed(text: string, signed: string)
    requires |signed| > 0
  {
    Says(signed[1..], "", 19) && (text == "v=" + signed || text == signed)
  }

  lemma NoLabel(prefix: string, digits: string)
    requires prefix != "" && !('0' <= prefix[0] <= '9') && digits != "" && Digits(digits)
    ensures TrimPrefix(prefix + digits, prefix) == digits && TrimPrefix(digits, prefix) == digits
  {
    assert (prefix + digits)[|prefix|..] == digits;
    assert '0' <= digits[0] <= '9' && digits[0] != prefix[0];
  }

  lemma ParseUintSays(text: string, prefix: string, limit: nat, n: nat)
    requires prefix != "" && !('0' <= prefix[0] <= '9')
    ensures ParseUint(TrimPrefix(text, prefix), limit) == Some(n) <==> Says(text, prefix, n) && n < limit
  {
    var trimmed := TrimPrefix(text, prefix);
    if ParseUint(trimmed, limit) == Some(n) {
      assert prefix <= text ==> text == prefix + trimmed;
      assert SaysWith(text, prefix, trimmed, n);
    }
    if Says(text, prefix, n) {
      var digits :| SaysWith(text, prefix, digits, n);
      NoLabel(prefix, digits);
    }
  }

  lemma ParseUintPlain(s: string, limit: nat, n: nat)
    ensures ParseUint(s, limit) == Some(n) <==> Says(s, "", n) && n < limit
  {
    if ParseUint(s, limit) == Some(n) { assert SaysWith(s, "", s, n); }
    if Says(s, "", n) {
      var digits :| SaysWith(s, "", digits, n);
      assert "" + digits == digits;
    }
  }

  lemma AtoiVersion(s: string)
    ensures Atoi(s) == Some(19) <==> Says(s, "", 19) || (|s| > 0 && s[0] == '+' && Says(s[1..], "", 19))
  {
    ParseUintPlain(s, TWO_63, 19);
    if |s| > 0 { ParseUintPlain(s[1..], TWO_63, 19); }
    if Says(s, "", 19) {
      var digits :| SaysWith(s, "", digits, 19);
      assert "" + digits == digits && '0' <= s[0] <= '9';
    }
  }

  lemma VersionSaid(text: string)
    requires Atoi(TrimPrefix(text, "v=")) == Some(19)
    ensures SaysVersion(text)
  {
    var trimmed := TrimPrefix(text, "v=");
    assert text == "v=" + trimmed || text == trimmed;
    AtoiVersion(trimmed);
    if Says(trimmed, "", 19) {
      var digits :| SaysWith(trimmed, "", digits, 19);
      assert "" + digits == digits;
      assert SaysWith(text, "v=", digits, 19);
    } else {
      assert Signed(text, trimmed);
    }
  }

  lemma PlainVersionRead(text: string)
    requires Says(text, "v=", 19)
    ensures Atoi(TrimPrefix(text, "v=")) == Some(19)
  {
    var digits :| SaysWith(text, "v=", digits, 19);
    NoLabel("v=", digits);
    assert SaysWith(digits, "", digits, 19);
    AtoiVersion(digits);
  }

  lemma SignedVersionRead(text: string, signed: string)
    requires |signed| > 0 && signed[0] == '+' && Signed(text, signed)
    ensures Atoi(TrimPrefix(text, "v=")) == Some(19)
  {
    assert ("v=" + signed)[2..] == signed;
    AtoiVersion(signed);
  }

  lemma VersionRead(text: string)
    ensures Atoi(TrimPrefix(text, "v=")) == Some(19) <==> SaysVersion(text)
  {
    if Atoi(TrimPrefix(text, "v=")) == Some(19) { VersionSaid(text); }
    if Says(text, "v=", 19) {
      PlainVersionRead(text);
    } else if signed :| |signed| > 0 && signed[0] == '+' && Signed(text, signed) {
      SignedVersionRead(text, signed);
    }
  }

  lemma SaysIsClean(text: string, prefix: string, n: nat)
    requires Says(text, prefix, n) && '$' !in prefix && ',' !in prefix
    ensures '$' !in text && ',' !in text
  {
    var digits :| SaysWith(text, prefix, digits, n);
    DigitsHave(digits);
  }

  lemma VersionIsClean(text: string)
    requires SaysVersion(text)
    ensures '$' !in text
  {
    if Says(text, "v=", 19) {
      SaysIsClean(text, "v=", 19);
    } else {
      var signed :| |signed| > 0 && signed[0] == '+' && Signed(text, signed);
      SaysIsClean(signed[1..], "", 19);
      assert signed == ['+'] + signed[1..];
    }
  }

  // ---------- The whole text ----------

  /** The six pieces of an accepted text: anything, the name, the version, three parameters, salt and hash. */
  ghost predicate Spells(encoded: string, p: HashParts, lead: string, version: string, m: string, t: string, q: string) {
    && encoded == Join([lead, "argon2id", version, Join([m, t, q], ','), p.salt, p.hash], '$')
    && '$' !in lead && '$' !in p.salt && '$' !in p.hash
    && SaysVersion(version)
    && Says(m, "m=", p.memory) && p.memory < 0x1_0000_0000
    && Says(t, "t=", p.iterations) && p.iterations < 0x1_0000_0000
    && Says(q, "p=", p.parallelism) && p.parallelism < 0x100
  }

  lemma JoinCons(first: string, rest: seq<string>, c: char)
    requires |rest| >= 1
    ensures Join([first] + rest, c) == first + ([c] + Join(rest, c))
  {
    assert ([first] + rest)[1..] == rest;
  }

  lemma {:induction false} JoinSplit(s: string, c: char)
    ensures Join(Split(s, c), c) == s
    decreases |s|
  {
    var k := IndexOf(s, c);
    if k < |s| {
      var first, rest, pieces := s[..k], s[k + 1..], Split(s[k + 1..], c);
      JoinSplit(rest, c);
      JoinCons(first, pieces, c);
      CutAt(s, k);
      assert Split(s, c) == [first] + pieces;
    }
  }

  lemma CutAt(s: string, k: nat)
    requires k < |s|
    ensures s == s[..k] + ([s[k]] + s[k + 1..])
  {
  }

  lemma SpelledParses(encoded: string, p: HashParts, lead: string, version: string, m: string, t: string, q: string)
    requires Spells(encoded, p, lead, version, m, t, q)
    ensures ParseHash(encoded) == Some(p)
  {
    var params := [m, t, q];
    var pieces := [lead, "argon2id", version, Join(params, ','), p.salt, p.hash];
    VersionIsClean(version);
    SaysIsClean(m, "m=", p.memory);
    SaysIsClean(t, "t=", p.iterations);
    SaysIsClean(q, "p=", p.parallelism);
    JoinThree(m, t, q, ',');
    SplitJoin(params, ',');
    SplitJoin(pieces, '$');
    VersionRead(version);
    ParseUintSays(m, "m=", UINT32, p.memory);
    ParseUintSays(t, "t=", UINT32, p.iterations);
    ParseUintSays(q, "p=", UINT8, p.parallelism);
  }

  lemma ParsedParams(parts: seq<string>, p: HashParts)
    requires ParseParts(parts) == Some(p)
    ensures |parts| == 6 && parts[1] == "argon2id" && parts[4] == p.salt && parts[5] == p.hash && SaysVersion(parts[2])
    ensures var params := Split(parts[3], ',');
            && |params| == 3
            && Says(params[0], "m=", p.memory) && p.memory < 0x1_0000_0000
            && Says(params[1], "t=", p.iterations) && p.iterations < 0x1_0000_0000
            && Says(params[2], "p=", p.parallelism) && p.parallelism < 0x100
  {
    var params := Split(parts[3], ',');
    VersionRead(parts[2]);
    ParseUintSays(params[0], "m=", UINT32, p.memory);
    ParseUintSays(params[1], "t=", UINT32, p.iterations);
    ParseUintSays(params[2], "p=", UINT8, p.parallelism);
  }

  lemma ParsedSpells(encoded: string, p: HashParts) returns (lead: string, version: string, m: string, t: string, q: string)
    requires ParseHash(encoded) == Some(p)
    ensures Spells(encoded, p, lead, version, m, t, q)
  {
    var parts := Split(encoded, '$');
    ParsedParams(parts, p);
    var params := Split(parts[3], ',');
    lead, version, m, t, q := parts[0], parts[2], params[0], params[1], params[2];
    JoinSplit(encoded, '$');
    JoinSplit(parts[3], ',');
    PiecesAreClean(encoded, '$');
    ThreePieces(params);
    SixPieces(parts);
  }

  lemma ThreePieces(s: seq<string>)
    requires |s| == 3
    ensures s == [s[0], s[1], s[2]]
  {
  }

  lemma SixPieces(s: seq<string>)
    requires |s| == 6
    ensures s == [s[0], s[1], s[2], s[3], s[4], s[5]]
  {
  }

  /** The parser accepts exactly the texts of six pieces between dollar signs that name argon2id and
      version 19 and give three nonempty numerals, each with or without its label, within 32, 32 and 8
      bits; and what it returns are these numbers and the last two pieces. */
  lemma AcceptedIff(encoded: string, p: HashParts)
    ensures ParseHash(encoded) == Some(p) <==> exists lead, version, m, t, q :: Spells(encoded, p, lead, version, m, t, q)
  {
    if ParseHash(encoded) == Some(p) {
      var lead, version, m, t, q := ParsedSpells(encoded, p);
    }
    if lead, version, m, t, q :| Spells(encoded, p, lead, version, m, t, q) {
      SpelledParses(encoded, p, lead, version, m, t, q);
    }
  }
}
