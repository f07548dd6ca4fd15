/** The printed form of a password hash and its parser (packages/auth/auth.go). Argon2 and the
    base64 coding of section 4 of RFC 4648 are parameters. */
module PasswordHash {
  import opened Options
  import opened Decimal
  import opened Strings

  const VERSION := 19
  const UINT32 := 0x1_0000_0000
  const UINT8 := 0x100

  datatype HashParts = HashParts(memory: nat, iterations: nat, parallelism: nat, salt: string, hash: string)

  predicate InRange(p: HashParts) {
    p.memory < UINT32 && p.iterations < UINT32 && p.parallelism < UINT8
  }

  // ---------- Printing ----------

  function Params(p: HashParts): seq<string> {
    ["m=" + Print(p.memory), "t=" + Print(p.iterations), "p=" + Print(p.parallelism)]
  }

  function Pieces(p: HashParts): seq<string> {
    ["", "argon2id", "v=" + Print(VERSION), Join(Params(p), ','), p.salt, p.hash]
  }

  /** The text that Hash prints. */
  function Format(p: HashParts): string {
    Join(Pieces(p), '$')
  }

  /** It is the format $argon2id$v=%d$m=%d,t=%d,p=%d$%s$%s. */
  lemma FormatText(p: HashParts)
    ensures Format(p) ==
              "" + "$" + "argon2id" + "$" + ("v=" + Print(VERSION))
              + "$" + (("m=" + Print(p.memory)) + "," + ("t=" + Print(p.iterations)) + "," + ("p=" + Print(p.parallelism)))
              + "$" + p.salt + "$" + p.hash
  {
    var m, t, q := "m=" + Print(p.memory), "t=" + Print(p.iterations), "p=" + Print(p.parallelism);
    JoinThree(m, t, q, ',');
    JoinSix("", "argon2id", "v=" + Print(VERSION), Join(Params(p), ','), p.salt, p.hash, '$');
  }

  // ---------- Parsing ----------

  function ParseUint(s: string, limit: nat): (r: Option<nat>)
    ensures r.Some? ==> r.value < limit
  {
    if s != "" && Digits(s) && Value(s) < limit then Some(Value(s)) else None
  }

  function Atoi(s: string): Option<int> {
    if s != "" && s[0] == '-' then
      (match ParseUint(s[1..], TWO_63 + 1) case None => None case Some(n) => Some(-(n as int)))
    else if s != "" && s[0] == '+' then ParseUint(s[1..], TWO_63)
    else ParseUint(s, TWO_63)
  }

  function ParseHash(encoded: string): Option<HashParts> {
    ParseParts(Split(encoded, '$'))
  }

  function ParseParts(parts: seq<string>): Option<HashParts> {
    if |parts| != 6 || parts[1] != "argon2id" then None else
    if Atoi(TrimPrefix(parts[2], "v=")) != Some(VERSION) then None else
    var params := Split(parts[3], ',');
    if |params| != 3 then None else
    match (ParseUint(TrimPrefix(params[0], "m="), UINT32),
           ParseUint(TrimPrefix(params[1], "t="), UINT32),
           ParseUint(TrimPrefix(params[2], "p="), UINT8))
    case (Some(m), Some(t), Some(p)) => Some(HashParts(m, t, p, parts[4], parts[5]))
    case _ => None
  }

  lemma DigitsHave(s: string)
    requires Digits(s)
    ensures '$' !in s && ',' !in s
  {
  }

  // ---------- Round trip ----------

  lemma ParamPieces(p: HashParts)
    ensures Split(Join(Params(p), ','), ',') == Params(p)
    ensures '$' !in Join(Params(p), ',')
  {
    DigitsHave(Print(p.memory));
    DigitsHave(Print(p.iterations));
    DigitsHave(Print(p.parallelism));
    SplitJoin(Params(p), ',');
    JoinThree(Params(p)[0], Params(p)[1], Params(p)[2], ',');
  }

  lemma FormatPieces(p: HashParts)
    requires '$' !in p.salt && '$' !in p.hash
    ensures Split(Join(Pieces(p), '$'), '$') == Pieces(p)
  {
    DigitsHave(Print(VERSION));
    ParamPieces(p);
    SplitJoin(Pieces(p), '$');
  }

  lemma Labelled(name: string, n: nat, limit: nat)
    requires n < limit
    ensures ParseUint(TrimPrefix(name + Print(n), name), limit) == Some(n)
  {
    ValuePrint(n);
    assert (name + Print(n))[|name|..] == Print(n);
  }

  lemma VersionReadBack()
    ensures Atoi(TrimPrefix("v=" + Print(VERSION), "v=")) == Some(VERSION)
  {
    Labelled("v=", VERSION, TWO_63);
    assert ("v=" + Print(VERSION))[2..] == Print(VERSION);
    assert Digits(Print(VERSION));
  }

  lemma Parses(p: HashParts)
    requires InRange(p)
    requires Split(Join(Pieces(p), '$'), '$') == Pieces(p)
    ensures ParseHash(Join(Pieces(p), '$')) == Some(p)
  {
    VersionReadBack();
    ParamPieces(p);
    Labelled("m=", p.memory, UINT32);
    Labelled("t=", p.iterations, UINT32);
    Labelled("p=", p.parallelism, UINT8);
  }

  lemma ParsedIsClean(encoded: string)
    ensures var p := ParseHash(encoded);
            p.Some? ==> InRange(p.value) && '$' !in p.value.salt && '$' !in p.value.hash
  {
    PiecesAreClean(encoded, '$');
  }

  /** Parsing what Hash prints gives back every component, for all 32-bit memory and iteration counts
      and all 8-bit parallelism, exactly when neither the salt nor the hash text contains a dollar
      sign. */
  lemma RoundTrip(p: HashParts)
    requires InRange(p)
    ensures ParseHash(Format(p)) == Some(p) <==> '$' !in p.salt && '$' !in p.hash
  {
    if '$' !in p.salt && '$' !in p.hash {
      FormatPieces(p);
      Parses(p);
    } else {
      ParsedIsClean(Format(p));
    }
  }

  /** The parser ignores whatever precedes the first dollar sign of any text. */
  lemma LeadIgnored(text: string, lead: string)
    requires text != "" && text[0] == '$' && '$' !in lead
    ensures ParseHash(lead + text) == ParseHash(text)
  {
    var rest := text[1..];
    assert text == "" + (['$'] + rest);
    SplitFirst("", '$', rest);
    SplitFirst(lead, '$', rest);
    assert lead + text == lead + (['$'] + rest);
    FirstPartIgnored("", lead, Split(rest, '$'));
  }

  lemma FirstPartIgnored(x: string, y: string, parts: seq<string>)
    ensures ParseParts([x] + parts) == ParseParts([y] + parts)
  {
  }

  /** Every accepted text has a printed normal form that parses to the same components. */
  lemma NormalForm(encoded: string)
    ensures var p := ParseHash(encoded);
            p.Some? ==> InRange(p.value) && ParseHash(Format(p.value)) == p
  {
    var p := ParseHash(encoded);
    ParsedIsClean(encoded);
    if p.Some? { RoundTrip(p.value); }
  }

  /** Different components are printed differently. */
  lemma FormatInjective(p: HashParts, q: HashParts)
    requires InRange(p) && InRange(q)
    requires '$' !in p.salt && '$' !in p.hash && '$' !in q.salt && '$' !in q.hash
    ensures Format(p) == Format(q) ==> p == q
  {
    RoundTrip(p);
    RoundTrip(q);
  }

  // ---------- Hash and Compare ----------

  type Bytes = seq<nat>

  // Argon2 as a function of password, salt, iterations, memory, parallelism and key length.
  type KeyFunction = (string, Bytes, nat, nat, nat, nat) -> Bytes

  datatype Hasher = Hasher(memory: nat, iterations: nat, parallelism: nat, keyLength: nat)

  function Hash(h: Hasher, password: string, salt: Bytes, derive: KeyFunction, encode: Bytes -> string): string {
    var key := derive(password, salt, h.iterations, h.memory, h.parallelism, h.keyLength);
    Format(HashParts(h.memory, h.iterations, h.parallelism, encode(salt), encode(key)))
  }

  predicate Accepts(password: string, parts: HashParts, derive: KeyFunction, decode: string -> Option<Bytes>) {
    match (decode(parts.salt), decode(parts.hash))
    case (Some(salt), Some(key)) =>
      derive(password, salt, parts.iterations, parts.memory, parts.parallelism, |key| % UINT32) == key
    case _ => false
  }

  predicate Compare(password: string, encoded: string, derive: KeyFunction, decode: string -> Option<Bytes>) {
    var parts := ParseHash(encoded);
    parts.Some? && Accepts(password, parts.value, derive, decode)
  }

  lemma CompareParsed(password: string, p: HashParts, derive: KeyFunction, decode: string -> Option<Bytes>)
    requires InRange(p) && '$' !in p.salt && '$' !in p.hash
    ensures Compare(password, Format(p), derive, decode) == Accepts(password, p, derive, decode)
  {
    RoundTrip(p);
  }

  /** A stored hash accepts a password exactly when its derived key is the one of the password it was
      made from; in particular it accepts that password, under any hasher configuration. */
  lemma CompareHash(h: Hasher, password: string, attempt: string, salt: Bytes, derive: KeyFunction,
                    encode: Bytes -> string, decode: string -> Option<Bytes>)
    requires h.memory < UINT32 && h.iterations < UINT32 && h.parallelism < UINT8 && h.keyLength < UINT32
    requires forall b: Bytes :: decode(encode(b)) == Some(b)
    requires forall b: Bytes :: '$' !in encode(b)
    requires |derive(password, salt, h.iterations, h.memory, h.parallelism, h.keyLength)| == h.keyLength
    ensures Compare(attempt, Hash(h, password, salt, derive, encode), derive, decode) <==>
            derive(attempt, salt, h.iterations, h.memory, h.parallelism, h.keyLength) ==
            derive(password, salt, h.iterations, h.memory, h.parallelism, h.keyLength)
  {
    var key := derive(password, salt, h.iterations, h.memory, h.parallelism, h.keyLength);
    var p := HashParts(h.memory, h.iterations, h.parallelism, encode(salt), encode(key));
    CompareParsed(attempt, p, derive, decode);
    assert decode(p.salt) == Some(salt) && decode(p.hash) == Some(key);
  }
}
