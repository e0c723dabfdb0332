/** When a reported vulnerability counts as a planted one: same file, shared weakness, nearby line. */
module VulnerabilityMatching {
  import opened Collections
  import opened Matching

  // ----- file names

  predicate Rooted(path: string) {
    (|path| >= 1 && path[0] == '/') || (|path| >= 2 && path[0] == '.' && path[1] == '/')
  }

  /** The name without its leading "/" and "./" pieces. */
  function Unrooted(path: string): string {
    if |path| >= 1 && path[0] == '/' then Unrooted(path[1..])
    else if |path| >= 2 && path[0] == '.' && path[1] == '/' then Unrooted(path[2..])
    else path
  }

  /** A run of "/" and "./" pieces. */
  predicate RootPieces(s: string) {
    if s == "" then true
    else if s[0] == '/' then RootPieces(s[1..])
    else |s| >= 2 && s[0] == '.' && s[1] == '/' && RootPieces(s[2..])
  }

  function LeadingSlashes(path: string): string {
    if |path| >= 1 && path[0] == '/' then LeadingSlashes(path[1..]) else path
  }

  function RemoveDotSlash(path: string): string {
    if |path| >= 2 && path[0] == '.' && path[1] == '/' then path[2..] else path
  }

  lemma {:induction false} LeadingSlashesKeep(path: string)
    ensures Unrooted(LeadingSlashes(path)) == Unrooted(path)
    ensures |LeadingSlashes(path)| <= |path|
    ensures |path| >= 1 && path[0] == '/' ==> |LeadingSlashes(path)| < |path|
  {
    if |path| >= 1 && path[0] == '/' {
      LeadingSlashesKeep(path[1..]);
    }
  }

  /** The result starts with neither piece. */
  lemma {:induction false} UnrootedIsBare(path: string)
    ensures !Rooted(Unrooted(path))
    ensures |Unrooted(path)| <= |path|
  {
    if |path| >= 1 && path[0] == '/' {
      UnrootedIsBare(path[1..]);
    } else if |path| >= 2 && path[0] == '.' && path[1] == '/' {
      UnrootedIsBare(path[2..]);
    }
  }

  /** What was taken off is a run of pieces. */
  lemma {:induction false} UnrootedTakesPieces(path: string) returns (prefix: string)
    ensures RootPieces(prefix) && path == prefix + Unrooted(path)
  {
    if |path| >= 1 && path[0] == '/' {
      assert path == "/" + path[1..] && Unrooted(path) == Unrooted(path[1..]);
      hide Unrooted, RootPieces;
      var rest := UnrootedTakesPieces(path[1..]);
      prefix := OnePiece("/", rest, path, path[1..]);
    } else if |path| >= 2 && path[0] == '.' && path[1] == '/' {
      assert path == "./" + path[2..] && Unrooted(path) == Unrooted(path[2..]);
      hide Unrooted, RootPieces;
      var rest := UnrootedTakesPieces(path[2..]);
      prefix := OnePiece("./", rest, path, path[2..]);
    } else {
      prefix := "";
      assert path == "" + path;
    }
  }

  lemma OnePiece(piece: string, rest: string, path: string, tail: string) returns (prefix: string)
    requires piece == "/" || piece == "./"
    requires RootPieces(rest) && tail == rest + Unrooted(tail)
    requires path == piece + tail && Unrooted(path) == Unrooted(tail)
    ensures RootPieces(prefix) && path == prefix + Unrooted(path)
  {
    prefix := piece + rest;
    hide Unrooted;
    assert prefix[|piece|..] == rest;
    Associates(piece, rest, Unrooted(tail));
  }

  /** There is only one way to take such a run off, so the result is determined by the path. */
  lemma {:induction false} UnrootedUnique(prefix: string, name: string)
    requires RootPieces(prefix) && !Rooted(name)
    ensures Unrooted(prefix + name) == name
  {
    if prefix == "" {
      assert prefix + name == name;
    } else if prefix[0] == '/' {
      assert (prefix + name)[1..] == prefix[1..] + name;
      UnrootedUnique(prefix[1..], name);
    } else {
      assert (prefix + name)[2..] == prefix[2..] + name;
      UnrootedUnique(prefix[2..], name);
    }
  }

  function Slashed(path: string): string {
    seq(|path|, i requires 0 <= i < |path| => if path[i] == '\\' then '/' else path[i])
  }

  /** What the text library decides: which characters are blank, which are digits, and what a
      string is in lower case. */
  datatype Text = Text(blank: char -> bool, digit: char -> bool, lower: string -> string)

  function Strip(u: Text, s: string): string {
    if s != "" && u.blank(s[0]) then Strip(u, s[1..])
    else if s != "" && u.blank(s[|s| - 1]) then Strip(u, s[..|s| - 1])
    else s
  }

  /** The stripped, lower-cased name with forward slashes only. */
  function Cleaned(u: Text, file: string): string {
    Slashed(u.lower(Strip(u, file)))
  }

  /** `_norm_file`. */
  function NormFile(u: Text, file: string): string {
    Unrooted(Cleaned(u, file))
  }

  /** The normalised name is the one bare name that a run of "/" and "./" in front of it turns into
      the cleaned name. */
  lemma NormFileExactly(u: Text, file: string, name: string)
    ensures (exists prefix :: RootPieces(prefix) && Cleaned(u, file) == prefix + name) && !Rooted(name)
            <==> name == NormFile(u, file)
  {
    if name == NormFile(u, file) {
      UnrootedIsBare(Cleaned(u, file));
      var prefix := UnrootedTakesPieces(Cleaned(u, file));
    } else if !Rooted(name) {
      forall prefix | RootPieces(prefix) ensures Cleaned(u, file) != prefix + name {
        UnrootedUnique(prefix, name);
      }
    }
  }

  /** The stripping loop: all leading slashes, then one "./", until neither is left. */
  method NormaliseFile(u: Text, file: string) returns (path: string)
    ensures path == NormFile(u, file)
    ensures !Rooted(path)
  {
    path := Cleaned(u, file);
    while Rooted(path)
      invariant Unrooted(path) == NormFile(u, file)
      decreases |path|
    {
      LeadingSlashesKeep(path);
      path := RemoveDotSlash(LeadingSlashes(path));
    }
  }

  predicate EndsWith(s: string, tail: string) {
    |tail| <= |s| && s[|s| - |tail|..] == tail
  }

  predicate FileOk(expected: string, reported: string) {
    expected != "" && reported != ""
    && (expected == reported || EndsWith(expected, "/" + reported) || EndsWith(reported, "/" + expected))
  }

  // ----- path components

  /** The components of a name, split at every slash; there is always at least one. */
  function Split(s: string): (r: seq<string>)
    ensures |r| >= 1
  {
    if s == "" then [""]
    else if s[0] == '/' then [""] + Split(s[1..])
    else
      var rest := Split(s[1..]);
      [[s[0]] + rest[0]] + rest[1..]
  }

  function Join(parts: seq<string>): string
    requires |parts| >= 1
  {
    if |parts| == 1 then parts[0] else parts[0] + "/" + Join(parts[1..])
  }

  lemma {:induction false} SplitConcat(p: string, s: string)
    ensures Split(p + "/" + s) == Split(p) + Split(s)
  {
    var whole := p + "/" + s;
    if p == "" {
      assert whole[1..] == s;
    } else {
      assert whole[0] == p[0];
      assert whole[1..] == p[1..] + "/" + s;
      SplitConcat(p[1..], s);
      if p[0] != '/' {
        assert Split(whole) == Split(p) + Split(s);
      }
    }
  }

  lemma {:induction false} JoinSplit(s: string)
    ensures Join(Split(s)) == s
  {
    if s != "" {
      JoinSplit(s[1..]);
      var rest := Split(s[1..]);
      if s[0] == '/' {
        assert Split(s)[1..] == rest;
        assert s == "" + "/" + s[1..];
      } else {
        assert Split(s)[1..] == rest[1..];
        assert s == [s[0]] + s[1..];
        JoinHead([s[0]], rest);
      }
    }
  }

  lemma JoinHead(c: string, rest: seq<string>)
    requires |rest| >= 1
    ensures Join([c + rest[0]] + rest[1..]) == c + Join(rest)
  {
    var all := [c + rest[0]] + rest[1..];
    assert all[1..] == rest[1..] && all[0] == c + rest[0];
    if |rest| > 1 {
      assert Join(rest) == rest[0] + "/" + Join(rest[1..]);
      assert Join(all) == c + rest[0] + "/" + Join(rest[1..]);
      hide Join;
      Associates(c, rest[0], "/");
      Associates(c, rest[0] + "/", Join(rest[1..]));
    }
  }

  lemma {:induction false} JoinConcat(x: seq<string>, y: seq<string>)
    requires |x| >= 1 && |y| >= 1
    ensures Join(x + y) == Join(x) + "/" + Join(y)
  {
    if |x| == 1 {
      assert (x + y)[1..] == y;
    } else {
      assert (x + y)[1..] == x[1..] + y;
      JoinConcat(x[1..], y);
      assert x[0] + "/" + (Join(x[1..]) + "/" + Join(y)) == (x[0] + "/" + Join(x[1..])) + "/" + Join(y);
    }
  }

  predicate IsSuffix(tail: seq<string>, list: seq<string>) {
    |tail| <= |list| && list[|list| - |tail|..] == tail
  }

  lemma EndingIsSuffix(s: string, t: string)
    requires EndsWith(s, "/" + t)
    ensures IsSuffix(Split(t), Split(s))
  {
    var p := s[..|s| - |t| - 1];
    assert s == p + ("/" + t);
    Associates(p, "/", t);
    SplitConcat(p, t);
  }

  lemma SuffixIsEnding(s: string, t: string)
    requires IsSuffix(Split(t), Split(s))
    ensures s == t || EndsWith(s, "/" + t)
  {
    var n := |Split(s)| - |Split(t)|;
    JoinSplit(s);
    JoinSplit(t);
    if n == 0 {
      assert Split(s) == Split(t);
    } else {
      var x := Split(s)[..n];
      assert Split(s) == x + Split(t);
      JoinConcat(x, Split(t));
      hide Join, Split;
      Associates(Join(x), "/", t);
    }
  }

  /** Ending with "/" and a name, or being it, is having its components as a suffix. */
  lemma EndsWithIsSuffix(s: string, t: string)
    ensures s == t || EndsWith(s, "/" + t) <==> IsSuffix(Split(t), Split(s))
  {
    hide Split;
    if EndsWith(s, "/" + t) {
      EndingIsSuffix(s, t);
    }
    if IsSuffix(Split(t), Split(s)) {
      SuffixIsEnding(s, t);
    }
  }

  /** Two files agree exactly when both are named and one's components end the other's. */
  lemma FileOkIsSuffix(expected: string, reported: string)
    ensures FileOk(expected, reported)
            <==> expected != "" && reported != ""
                 && (IsSuffix(Split(expected), Split(reported)) || IsSuffix(Split(reported), Split(expected)))
  {
    EndsWithIsSuffix(expected, reported);
    EndsWithIsSuffix(reported, expected);
  }

  // ----- the other fields

  /** The leading run of digits. */
  function DigitRun(u: Text, s: string): string {
    if s != "" && u.digit(s[0]) then [s[0]] + DigitRun(u, s[1..]) else ""
  }

  function FirstDigits(u: Text, s: string): string {
    if s == "" || u.digit(s[0]) then DigitRun(u, s) else FirstDigits(u, s[1..])
  }

  function WithoutZeros(s: string): string {
    if s != "" && s[0] == '0' then WithoutZeros(s[1..]) else s
  }

  /** The first number in a CWE field without its leading zeros, or nothing. */
  function CweNumber(u: Text, field: string): string {
    var digits := FirstDigits(u, field);
    if digits == "" then "" else if WithoutZeros(digits) == "" then "0" else WithoutZeros(digits)
  }

  predicate WordCharacter(c: char) {
    'a' <= c <= 'z' || '0' <= c <= '9'
  }

  function WordRun(s: string): string {
    if s != "" && WordCharacter(s[0]) then [s[0]] + WordRun(s[1..]) else ""
  }

  lemma WordRunFits(s: string)
    ensures |WordRun(s)| <= |s|
  {
  }

  /** The maximal runs of lower-case letters and digits. */
  function Words(s: string): set<string> {
    if s == "" then {}
    else if WordCharacter(s[0]) then
      WordRunFits(s[1..]);
      {WordRun(s)} + Words(s[1 + |WordRun(s[1..])|..])
    else Words(s[1..])
  }

  // ----- the whole matcher

  datatype Line = NoLine | At(number: int)

  /** A vulnerability record as reported or planted; the line only if it is a number. */
  datatype Vulnerability = Vulnerability(file: string, cwe: string, allCwes: seq<string>,
                                         title: string, description: string, line: Line)

  const LINE_WINDOW := 10

  function CwesOf(u: Text, v: Vulnerability): set<string> {
    ({CweNumber(u, v.cwe)} + set c | c in v.allCwes :: CweNumber(u, c)) - {""}
  }

  function WordsOf(u: Text, v: Vulnerability): set<string> {
    Words(u.lower(v.title)) + Words(u.lower(v.description))
  }

  predicate LineOk(a: Vulnerability, b: Vulnerability) {
    a.line.NoLine? || b.line.NoLine? || -LINE_WINDOW <= a.line.number - b.line.number <= LINE_WINDOW
  }

  /** The shared fraction of the two word sets, zero if either is empty. */
  function Overlap(a: set<string>, b: set<string>): real {
    if a == {} || b == {} then 0.0 else |a * b| as real / |a + b| as real
  }

  predicate Matches(u: Text, expected: Vulnerability, reported: Vulnerability) {
    && FileOk(NormFile(u, expected.file), NormFile(u, reported.file))
    && (CwesOf(u, expected) * CwesOf(u, reported) != {}
        || Overlap(WordsOf(u, expected), WordsOf(u, reported)) >= 0.34)
    && LineOk(expected, reported)
  }

  /** It does not matter which of the two is planted and which is reported. */
  lemma MatchesIsSymmetric(u: Text, a: Vulnerability, b: Vulnerability)
    ensures Matches(u, a, b) == Matches(u, b, a)
  {
    hide NormFile, CwesOf, WordsOf;
    var x, y := CwesOf(u, a), CwesOf(u, b);
    var v, w := WordsOf(u, a), WordsOf(u, b);
    assert x * y == y * x;
    assert v * w == w * v && v + w == w + v;
  }

  /** Greedy matching with this matcher does lose half: in one file with one CWE, planted at lines
      10 and 0 and reported at lines 5 and 20, only one pair is found where two exist. */
  lemma GreedyLosesHalf(u: Text, v: Vulnerability)
    requires NormFile(u, v.file) != "" && CweNumber(u, v.cwe) != ""
    ensures var expected := [v.(line := At(10)), v.(line := At(0))];
            var reported := [v.(line := At(5)), v.(line := At(20))];
            var m := (e: Vulnerability, r: Vulnerability) => Matches(u, e, r);
            && |Greedy(expected, reported, m)| == 1
            && IsMatching(map[0 := 1, 1 := 0], expected, reported, m)
  {
    var m := (e: Vulnerability, r: Vulnerability) => Matches(u, e, r);
    var a, b, x, y := v.(line := At(10)), v.(line := At(0)), v.(line := At(5)), v.(line := At(20));
    assert CweNumber(u, v.cwe) in CwesOf(u, v);
    assert forall n :: CwesOf(u, v.(line := n)) == CwesOf(u, v);
    assert m(a, x) && m(a, y) && m(b, x) && !m(b, y);
    HalfIsReached(a, b, x, y, m);
    var g: map<nat, nat> := map[0 := 0];
    assert g.Keys == {0};
  }
}
