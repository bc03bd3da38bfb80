/** The command risk classifier: a command is normalised (trimmed, lower-cased),
    looked up in a whitelist and otherwise matched against three destructive
    patterns. */
module Security {
  import opened Text

  datatype RiskLevel = Safe | Destructive | Unknown

  datatype Classification = Classification(category: string, riskLevel: RiskLevel)

  /** `command.trim().toLowerCase()` */
  function Normalize(command: string): string {
    Lower(Trim(command))
  }

  /** `\b` before index `i` of `s`, where `s[i]` is a word character. */
  predicate BoundaryBefore(s: string, i: int)
    requires 0 <= i <= |s|
  {
    i == 0 || !IsWordChar(s[i - 1])
  }

  /** `\b` at index `j` of `s`, where `s[j - 1]` is a word character. */
  predicate BoundaryAfter(s: string, j: int)
    requires 0 <= j <= |s|
  {
    j == |s| || !IsWordChar(s[j])
  }

  /** `\bw\b` matches at index `i`, for a word `w` that starts and ends with a word character. */
  predicate WordAt(s: string, w: string, i: int) {
    && 0 <= i && i + |w| <= |s|
    && s[i..i + |w|] == w
    && BoundaryBefore(s, i)
    && BoundaryAfter(s, i + |w|)
  }

  /** `\brm\s+-rf\b` matches with "rm" at `i` and "-rf" at `j`. */
  predicate RmRfAt(s: string, i: int, j: int) {
    && 0 <= i && i + 2 < j && j + 3 <= |s|
    && s[i..i + 2] == "rm"
    && (forall k :: i + 2 <= k < j ==> IsSpace(s[k]))
    && s[j..j + 3] == "-rf"
    && BoundaryBefore(s, i)
    && BoundaryAfter(s, j + 3)
  }

  /** One of the three destructive patterns occurs in `s`. */
  predicate HasDestructiveMarker(s: string) {
    || (exists i, j | 0 <= i < j <= |s| :: RmRfAt(s, i, j))
    || (exists i | 0 <= i <= |s| :: WordAt(s, "shutdown", i))
    || (exists i | 0 <= i <= |s| :: WordAt(s, "format", i))
  }

  /** `CommandClassifier.classify` over the whitelist it holds. The whitelist is
      consulted first, so a trusted command is safe whatever it contains; the
      fall-through category "unknown" is still rated safe, so the risk level
      "unknown" is never produced. */
  function Classify(whitelist: set<string>, command: string): (r: Classification)
    ensures r.riskLevel != Unknown
    ensures Normalize(command) in whitelist ==> r == Classification("whitelist", Safe)
    ensures r.riskLevel == Destructive <==>
              Normalize(command) !in whitelist && HasDestructiveMarker(Normalize(command))
    ensures Trim(command) == "" && Normalize(command) !in whitelist ==> r == Classification("empty", Safe)
    ensures r.category in {"whitelist", "destructive", "empty", "unknown"}
    ensures r.riskLevel == Destructive ==> r.category == "destructive"
    ensures Normalize(command) !in whitelist && !HasDestructiveMarker(Normalize(command)) && Trim(command) != "" ==>
              r == Classification("unknown", Safe)
  {
    var normalized := Normalize(command);
    if normalized in whitelist then Classification("whitelist", Safe)
    else if HasDestructiveMarker(normalized) then Classification("destructive", Destructive)
    else if |normalized| == 0 then Classification("empty", Safe)
    else Classification("unknown", Safe)
  }

  /** Normalising is idempotent, so a command and its normal form classify alike. */
  lemma NormalizedClassifiesAlike(whitelist: set<string>, command: string)
    ensures Normalize(Normalize(command)) == Normalize(command)
    ensures Classify(whitelist, Normalize(command)) == Classify(whitelist, command)
  {
    LowerTrimIdempotent(command);
  }

  /** Once a command is trusted, every spelling of it that differs only in case
      or surrounding white space is safe. */
  lemma TrustedSpellingsAreSafe(whitelist: set<string>, trusted: string, command: string)
    requires Normalize(command) == Normalize(trusted)
    ensures Classify(whitelist + {Normalize(trusted)}, command).riskLevel == Safe
    ensures Classify(whitelist + {Normalize(trusted)}, command).category == "whitelist"
  {
  }

  /** A command already in normal form is its own normal form. */
  lemma NormalFormOf(c: string)
    requires c != [] ==> !IsSpace(c[0]) && !IsSpace(c[|c| - 1])
    requires forall i :: 0 <= i < |c| ==> !('A' <= c[i] <= 'Z')
    ensures Normalize(c) == c
  {
    TrimOfTrimmed(c);
  }

  /** Normalising a command that starts with a lower-case word `w` keeps `w` in
      front, and what follows it is still not a word character. */
  lemma {:induction false} NormalizeKeepsLeadingWord(w: string, rest: string)
    requires w != [] && !IsSpace(w[0]) && !IsSpace(w[|w| - 1])
    requires forall i :: 0 <= i < |w| ==> !('A' <= w[i] <= 'Z')
    requires rest == [] || !IsWordChar(rest[0])
    ensures |Normalize(w + rest)| >= |w| && Normalize(w + rest)[..|w|] == w
    ensures |Normalize(w + rest)| == |w| || !IsWordChar(Normalize(w + rest)[|w|])
  {
    var c := w + rest;
    assert c[0] == w[0];
    assert TrimStart(c) == c;
    var t := Trim(c);
    assert t == TrimEnd(c);
    assert t == c[..|t|];
    assert c[|w| - 1] == w[|w| - 1];
    assert |t| >= |w|;
    var n := Normalize(c);
    assert n == Lower(t);
    forall i | 0 <= i < |w| ensures n[i] == w[i] {
      assert t[i] == w[i];
    }
    if |t| > |w| {
      assert t[|w|] == rest[0];
    }
  }

  /** A normal form that starts with the word `rm -rf` has the first pattern. */
  lemma RmRfInFront(n: string)
    requires |n| >= 6 && n[..6] == "rm -rf" && (|n| == 6 || !IsWordChar(n[6]))
    ensures HasDestructiveMarker(n)
  {
    assert n[0..2] == n[..6][0..2];
    assert n[3..6] == n[..6][3..6];
    assert IsSpace(n[..6][2]);
    assert RmRfAt(n, 0, 3);
  }

  /** `rm -rf` followed by anything that ends the word is destructive. */
  lemma RmRfIsDestructive(rest: string)
    requires rest == [] || !IsWordChar(rest[0])
    ensures Classify({}, "rm -rf" + rest).riskLevel == Destructive
  {
    NormalizeKeepsLeadingWord("rm -rf", rest);
    RmRfInFront(Normalize("rm -rf" + rest));
  }

  /** `shutdown` followed by anything that ends the word is destructive. */
  lemma ShutdownIsDestructive(rest: string)
    requires rest == [] || !IsWordChar(rest[0])
    ensures Classify({}, "shutdown" + rest).riskLevel == Destructive
  {
    var w := "shutdown";
    NormalizeKeepsLeadingWord(w, rest);
    var n := Normalize(w + rest);
    assert n[0..8] == w;
    assert WordAt(n, "shutdown", 0);
  }

  /** `CommandClassifier`: the whitelist set it holds is its only state. */
  class CommandClassifier {
    var whitelist: set<string>

    constructor ()
      ensures whitelist == {}
    {
      whitelist := {};
    }

    /** `addToWhitelist`: trusts the normal form of `cmd`; adding it again changes nothing. */
    method AddToWhitelist(cmd: string)
      modifies this
      ensures whitelist == old(whitelist) + {Normalize(cmd)}
      ensures old(Normalize(cmd) in whitelist) ==> whitelist == old(whitelist)
      ensures forall c :: Normalize(c) == Normalize(cmd) ==> Classify(whitelist, c).riskLevel == Safe
    {
      whitelist := whitelist + {Normalize(cmd)};
    }
  }
}
