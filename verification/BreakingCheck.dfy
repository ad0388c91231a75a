/**
 How scripts/breaking-check.ts recognises harmless changes of a snapshotted declaration: members added to a
 const (`isMembersAdded`) and optional parameters appended to a function (`gainedOptionalParameters`).
 */
module BreakingCheck {
  import opened Text
  import opened Wrappers

  // ---------------------------------------------------------------- subsequences

  /** `text.split(c)`. */
  function Split(text: string, c: char): (r: seq<string>)
    ensures |r| > 0
    decreases |text|
  {
    var i := IndexOf(text, c);
    if i.None? then [text] else [text[..i.value]] + Split(text[i.value + 1..], c)
  }

  /** `at` places every piece of `a` in `b`, in order. */
  ghost predicate Places(a: seq<string>, b: seq<string>, at: seq<nat>) {
    && |at| == |a|
    && (forall k :: 0 <= k < |a| ==> at[k] < |b| && b[at[k]] == a[k])
    && forall j, k :: 0 <= j < k < |a| ==> at[j] < at[k]
  }

  ghost predicate Subsequence(a: seq<string>, b: seq<string>) {
    exists at :: Places(a, b, at)
  }

  /** The single forward pass: the first match is always taken. */
  predicate FirstMatches(a: seq<string>, b: seq<string>)
    decreases |b|
  {
    if a == [] then true
    else if b == [] then false
    else if a[0] == b[0] then FirstMatches(a[1..], b[1..])
    else FirstMatches(a, b[1..])
  }

  /** Each place later by one, for a list with one more before it. */
  function Later(at: seq<nat>): (r: seq<nat>)
    ensures |r| == |at| && forall k :: 0 <= k < |r| ==> r[k] == at[k] + 1
  {
    seq(|at|, k requires 0 <= k < |at| => at[k] + 1)
  }

  function Earlier(at: seq<nat>): (r: seq<nat>)
    requires forall k :: 0 <= k < |at| ==> at[k] > 0
    ensures |r| == |at| && forall k :: 0 <= k < |r| ==> r[k] == at[k] - 1
  {
    seq(|at|, k requires 0 <= k < |at| => at[k] - 1)
  }

  lemma PlacedLater(a: seq<string>, b: seq<string>, rest: seq<nat>)
    requires b != [] && Places(a, b[1..], rest)
    ensures Places(a, b, Later(rest))
  {
    forall k | 0 <= k < |a| ensures Later(rest)[k] < |b| && b[Later(rest)[k]] == a[k] {
      assert b[1..][rest[k]] == b[rest[k] + 1];
    }
  }

  lemma PlacedFirst(a: seq<string>, b: seq<string>, later: seq<nat>)
    requires a != [] && b != [] && a[0] == b[0]
    requires Places(a[1..], b, later) && forall k :: 0 <= k < |later| ==> later[k] > 0
    ensures Places(a, b, [0] + later)
  {
    var at := [0] + later;
    forall k | 0 <= k < |a| ensures at[k] < |b| && b[at[k]] == a[k] {
      if k > 0 {
        assert at[k] == later[k - 1] && a[k] == a[1..][k - 1];
      }
    }
    forall i, j | 0 <= i < j < |a| ensures at[i] < at[j] {
      assert at[j] == later[j - 1];
      if i > 0 {
        assert at[i] == later[i - 1];
      }
    }
  }

  lemma {:induction false} PassFinds(a: seq<string>, b: seq<string>) returns (at: seq<nat>)
    requires FirstMatches(a, b)
    ensures Places(a, b, at)
    decreases |b|
  {
    if a == [] {
      at := [];
    } else if a[0] == b[0] {
      var rest := PassFinds(a[1..], b[1..]);
      PlacedLater(a[1..], b, rest);
      PlacedFirst(a, b, Later(rest));
      at := [0] + Later(rest);
    } else {
      var rest := PassFinds(a, b[1..]);
      PlacedLater(a, b, rest);
      at := Later(rest);
    }
  }

  /** Whatever placement there is, taking the first match leaves one for the rest. */
  lemma {:induction false} PassMisses(a: seq<string>, b: seq<string>, at: seq<nat>)
    requires Places(a, b, at)
    ensures FirstMatches(a, b)
    decreases |b|
  {
    if a != [] {
      assert at[0] < |b|;
      if a[0] == b[0] {
        var rest := WithoutFirst(a, b, at);
        PassMisses(a[1..], b[1..], rest);
      } else {
        var rest := OneEarlier(a, b, at);
        PassMisses(a, b[1..], rest);
      }
    }
  }

  /** The first element takes the first place, and the others theirs in what is left. */
  lemma WithoutFirst(a: seq<string>, b: seq<string>, at: seq<nat>) returns (rest: seq<nat>)
    requires a != [] && b != [] && Places(a, b, at)
    ensures Places(a[1..], b[1..], rest)
  {
    var others := at[1..];
    forall k | 0 <= k < |others| ensures others[k] > 0 && others[k] < |b| && b[others[k]] == a[1..][k] {
      assert others[k] == at[k + 1] && at[0] < at[k + 1];
    }
    forall j, k | 0 <= j < k < |others| ensures others[j] < others[k] {
      assert others[j] == at[j + 1] && others[k] == at[k + 1];
    }
    rest := PlacedEarlier(a[1..], b, others);
  }

  /** Where the first place is not taken, all of them are one earlier without it. */
  lemma OneEarlier(a: seq<string>, b: seq<string>, at: seq<nat>) returns (rest: seq<nat>)
    requires a != [] && b != [] && Places(a, b, at) && a[0] != b[0]
    ensures Places(a, b[1..], rest)
  {
    NoneFirst(a, b, at);
    rest := PlacedEarlier(a, b, at);
  }

  lemma PlacedEarlier(a: seq<string>, b: seq<string>, at: seq<nat>) returns (rest: seq<nat>)
    requires b != [] && Places(a, b, at) && forall k :: 0 <= k < |at| ==> at[k] > 0
    ensures Places(a, b[1..], rest)
  {
    rest := Earlier(at);
    forall k | 0 <= k < |a| ensures rest[k] < |b[1..]| && b[1..][rest[k]] == a[k] {
      assert b[1..][at[k] - 1] == b[at[k]];
    }
  }

  lemma NoneFirst(a: seq<string>, b: seq<string>, at: seq<nat>)
    requires a != [] && b != [] && Places(a, b, at) && a[0] != b[0]
    ensures forall k :: 0 <= k < |a| ==> at[k] > 0
  {
    assert at[0] != 0;
  }

  lemma PassIff(a: seq<string>, b: seq<string>)
    ensures FirstMatches(a, b) <==> Subsequence(a, b)
  {
    if FirstMatches(a, b) {
      var at := PassFinds(a, b);
    }
    if Subsequence(a, b) {
      var at :| Places(a, b, at);
      PassMisses(a, b, at);
    }
  }

  // ---------------------------------------------------------------- isMembersAdded

  const CONST := "const "

  ghost predicate MembersAdded(removed: string, added: string) {
    && CONST <= removed && ';' in removed && ';' in added
    && |Split(removed, ';')| < |Split(added, ';')|
    && Subsequence(Split(removed, ';'), Split(added, ';'))
  }

  method IsMembersAdded(removed: string, added: string) returns (r: bool)
    ensures r <==> MembersAdded(removed, added)
  {
    if !(CONST <= removed) || ';' !in removed || ';' !in added {
      return false;
    }
    var before, after := Split(removed, ';'), Split(added, ';');
    PassIff(before, after);
    if |after| <= |before| {
      return false;
    }
    var next := 0;
    for i := 0 to |before|
      invariant next <= |after|
      invariant FirstMatches(before, after) == FirstMatches(before[i..], after[next..])
    {
      var piece := before[i];
      while next < |after| && after[next] != piece
        invariant next <= |after|
        invariant FirstMatches(before, after) == FirstMatches(before[i..], after[next..])
      {
        assert after[next..][1..] == after[next + 1..] && before[i..][0] == piece;
        next := next + 1;
      }
      if next == |after| {
        return false;
      }
      assert after[next..][1..] == after[next + 1..] && before[i..][1..] == before[i + 1..];
      next := next + 1;
    }
    return true;
  }

  lemma SubsequenceTransitive(a: seq<string>, b: seq<string>, c: seq<string>)
    requires Subsequence(a, b) && Subsequence(b, c)
    ensures Subsequence(a, c)
  {
    var f :| Places(a, b, f);
    var g :| Places(b, c, g);
    var h := seq(|a|, k requires 0 <= k < |a| => g[f[k]]);
    assert Places(a, c, h);
  }

  /** A strict partial order: accepting two changes in a row never accepts what one comparison would refuse. */
  lemma MembersAddedIsStrictOrder(a: string, b: string, c: string)
    ensures !MembersAdded(a, a)
    ensures MembersAdded(a, b) && MembersAdded(b, c) ==> MembersAdded(a, c)
  {
    if MembersAdded(a, b) && MembersAdded(b, c) {
      SubsequenceTransitive(Split(a, ';'), Split(b, ';'), Split(c, ';'));
    }
  }

  // ---------------------------------------------------------------- _closing

  /** Opening minus closing parentheses. */
  function Balance(text: string): int {
    if text == [] then 0
    else Balance(text[..|text| - 1]) + (if text[|text| - 1] == '(' then 1 else if text[|text| - 1] == ')' then -1 else 0)
  }

  predicate ClosesAt(text: string, open: nat, i: nat)
    requires open <= i < |text|
  {
    text[i] == ')' && Balance(text[open..i + 1]) == 0
  }

  /** The first parenthesis that closes what was opened since `open`. */
  ghost predicate Closes(text: string, open: nat, r: Option<nat>)
    requires open <= |text|
  {
    match r
    case Some(i) => open <= i < |text| && ClosesAt(text, open, i) && forall j :: open <= j < i ==> !ClosesAt(text, open, j)
    case None => forall j :: open <= j < |text| ==> !ClosesAt(text, open, j)
  }

  method Closing(text: string, open: nat) returns (r: Option<nat>)
    requires open <= |text|
    ensures Closes(text, open, r)
  {
    var depth := 0;
    for i := open to |text|
      invariant depth == Balance(text[open..i])
      invariant forall j :: open <= j < i ==> !ClosesAt(text, open, j)
    {
      assert text[open..i + 1][..i - open] == text[open..i];
      if text[i] == '(' {
        depth := depth + 1;
      } else if text[i] == ')' {
        depth := depth - 1;
        if depth == 0 {
          return Some(i);
        }
      }
    }
    return None;
  }

  // ---------------------------------------------------------------- _parameters

  /** What a character does to the nesting depth; the `>` of `=>` does nothing. */
  function Nesting(list: string, i: nat): int
    requires i < |list|
  {
    var c := list[i];
    if c == '(' || c == '{' || c == '[' || c == '<' then 1
    else if c == ')' || c == '}' || c == ']' || (c == '>' && (i == 0 || list[i - 1] != '=')) then -1
    else 0
  }

  function Depth(list: string, i: nat): int
    requires i <= |list|
  {
    if i == 0 then 0 else Depth(list, i - 1) + Nesting(list, i - 1)
  }

  /** A comma outside every bracket, brace and type argument. */
  predicate Separates(list: string, i: nat)
    requires i < |list|
  {
    list[i] == ',' && Depth(list, i) == 0
  }

  /** The text between separating commas, untrimmed, of the first `n` characters. */
  function Pieces(list: string, n: nat): (p: seq<string>)
    requires n <= |list|
    ensures |p| > 0
  {
    if n == 0 then [""]
    else
      var p := Pieces(list, n - 1);
      if Separates(list, n - 1) then p + [""] else p[..|p| - 1] + [p[|p| - 1] + [list[n - 1]]]
  }

  function TrimAll(pieces: seq<string>): seq<string> {
    if pieces == [] then [] else TrimAll(pieces[..|pieces| - 1]) + [Trim(pieces[|pieces| - 1])]
  }

  /** The parameters of a list: its pieces trimmed, without a blank last one. */
  function ParametersOf(list: string): seq<string> {
    var p := Pieces(list, |list|);
    var last := Trim(p[|p| - 1]);
    TrimAll(p[..|p| - 1]) + if last == "" then [] else [last]
  }

  method Parameters(list: string) returns (out: seq<string>)
    ensures out == ParametersOf(list)
  {
    hide *;
    out := [];
    var depth, start := 0, 0;
    FirstPiece(list);
    for i := 0 to |list|
      invariant 0 <= start <= i && depth == Depth(list, i)
      invariant out == TrimAll(Whole(list, i)) && Open(list, i) == list[start..i]
    {
      PieceStep(list, i);
      DepthStep(list, i);
      SliceStep(list, start, i);
      if Nesting(list, i) != 0 {
        depth := depth + Nesting(list, i);
      } else if list[i] == ',' && depth == 0 {
        out := out + [Trim(list[start..i])];
        start := i + 1;
      }
    }
    assert list[start..|list|] == list[start..];
    WholeAndOpen(list);
    var last := Trim(list[start..]);
    if last != "" {
      out := out + [last];
    } else {
      assert out + [] == out;
    }
  }

  lemma FirstPiece(list: string)
    ensures TrimAll(Whole(list, 0)) == [] && Open(list, 0) == list[0..0] && Depth(list, 0) == 0
  {
    assert Pieces(list, 0)[..0] == [];
  }

  lemma WholeAndOpen(list: string)
    ensures ParametersOf(list)
            == TrimAll(Whole(list, |list|)) + if Trim(Open(list, |list|)) == "" then [] else [Trim(Open(list, |list|))]
  {
  }

  lemma DepthStep(list: string, i: nat)
    requires i < |list|
    ensures Depth(list, i + 1) == Depth(list, i) + Nesting(list, i)
    ensures Separates(list, i) <==> Nesting(list, i) == 0 && list[i] == ',' && Depth(list, i) == 0
  {
  }

  lemma SliceStep(list: string, start: nat, i: nat)
    requires start <= i < |list|
    ensures list[start..i + 1] == list[start..i] + [list[i]] && list[i + 1..i + 1] == ""
  {
  }

  /** The pieces that are complete, and the one still growing. */
  ghost function Whole(list: string, n: nat): seq<string>
    requires n <= |list|
  {
    var p := Pieces(list, n);
    p[..|p| - 1]
  }

  ghost function Open(list: string, n: nat): string
    requires n <= |list|
  {
    var p := Pieces(list, n);
    p[|p| - 1]
  }

  lemma PieceStep(list: string, i: nat)
    requires i < |list|
    ensures Whole(list, i + 1) == if Separates(list, i) then Whole(list, i) + [Open(list, i)] else Whole(list, i)
    ensures Open(list, i + 1) == if Separates(list, i) then "" else Open(list, i) + [list[i]]
    ensures Separates(list, i) ==> TrimAll(Whole(list, i + 1)) == TrimAll(Whole(list, i)) + [Trim(Open(list, i))]
  {
    hide Separates, Trim;
    var p := Pieces(list, i);
    if Separates(list, i) {
      assert (p + [""])[..|p|] == p == p[..|p| - 1] + [p[|p| - 1]];
      assert p[..|p|] == p;
    } else {
      assert Pieces(list, i + 1)[..|p| - 1] == p[..|p| - 1];
    }
  }

  function JoinedByCommas(pieces: seq<string>): string
    requires |pieces| > 0
  {
    if |pieces| == 1 then pieces[0] else JoinedByCommas(pieces[..|pieces| - 1]) + [','] + pieces[|pieces| - 1]
  }

  /** Nothing is lost in splitting: the untrimmed pieces rejoin to the list. */
  lemma {:induction false} PiecesRejoin(list: string, n: nat)
    requires n <= |list|
    ensures JoinedByCommas(Pieces(list, n)) == list[..n]
  {
    if n > 0 {
      hide *;
      PiecesRejoin(list, n - 1);
      NextPieces(list, n - 1);
      JoinNext(Pieces(list, n - 1), Pieces(list, n), list[n - 1]);
      OneMoreChar(list, n - 1);
    }
  }

  lemma OneMoreChar(list: string, i: nat)
    requires i < |list|
    ensures list[..i + 1] == list[..i] + [list[i]]
  {
  }

  /** How the pieces grow by a character. */
  predicate Grown(p: seq<string>, q: seq<string>, c: char)
    requires p != []
  {
    (q == p + [""] && c == ',') || q == p[..|p| - 1] + [p[|p| - 1] + [c]]
  }

  lemma JoinNext(p: seq<string>, q: seq<string>, c: char)
    requires p != [] && q != [] && Grown(p, q, c)
    ensures JoinedByCommas(q) == JoinedByCommas(p) + [c]
  {
    hide JoinedByCommas;
    if q == p + [""] && c == ',' {
      JoinEmpty(p);
    } else {
      var front, last := p[..|p| - 1], p[|p| - 1];
      assert p == front + [last] && q == front + [last + [c]];
      JoinLonger(front, last, c);
    }
  }

  /** A separating comma starts a new piece, anything else goes into the last. */
  lemma NextPieces(list: string, i: nat)
    requires i < |list|
    ensures Grown(Pieces(list, i), Pieces(list, i + 1), list[i])
  {
  }

  lemma JoinEmpty(p: seq<string>)
    requires p != []
    ensures JoinedByCommas(p + [""]) == JoinedByCommas(p) + [',']
  {
    assert (p + [""])[..|p|] == p;
  }

  lemma JoinLonger(front: seq<string>, last: string, c: char)
    ensures JoinedByCommas(front + [last + [c]]) == JoinedByCommas(front + [last]) + [c]
  {
    hide *;
    LastJoined(front, last);
    LastJoined(front, last + [c]);
    if front != [] {
      AppendLast(JoinedByCommas(front) + [','], last, c);
    }
  }

  lemma AppendLast(s: string, t: string, c: char)
    ensures s + (t + [c]) == s + t + [c]
  {
  }

  lemma LastJoined(front: seq<string>, last: string)
    ensures JoinedByCommas(front + [last]) == if front == [] then last else JoinedByCommas(front) + [','] + last
  {
    assert (front + [last])[..|front|] == front;
  }

  /** Where piece `k` starts. */
  function Offset(pieces: seq<string>, k: nat): nat
    requires k <= |pieces|
  {
    if k == 0 then 0 else Offset(pieces, k - 1) + |pieces[k - 1]| + 1
  }

  lemma {:induction false} OffsetIgnoresLater(p: seq<string>, q: seq<string>, k: nat)
    requires k <= |p| && k <= |q| && forall j :: 0 <= j < k ==> p[j] == q[j]
    ensures Offset(p, k) == Offset(q, k)
  {
    if k > 0 {
      OffsetIgnoresLater(p, q, k - 1);
    }
  }

  /** Piece `k` stands between separating commas and contains none. */
  ghost predicate StandsAt(list: string, n: nat, pieces: seq<string>, k: nat)
    requires n <= |list| && k < |pieces|
  {
    var from := Offset(pieces, k);
    var to := from + |pieces[k]|;
    && to <= n && list[from..to] == pieces[k]
    && (if k == |pieces| - 1 then to == n else to < n && Separates(list, to))
    && forall j :: from <= j < to ==> !Separates(list, j)
  }

  /** The list is cut at every separating comma and nowhere else. */
  lemma {:induction false} CutExactlyAtSeparators(list: string, n: nat, k: nat)
    requires n <= |list| && k < |Pieces(list, n)|
    ensures StandsAt(list, n, Pieces(list, n), k)
  {
    hide *;
    PiecesStep(list, n);
    if n > 0 {
      var p, q := Pieces(list, n - 1), Pieces(list, n);
      CutExactlyAtSeparators(list, n - 1, |p| - 1);
      if k < |p| - 1 {
        CutExactlyAtSeparators(list, n - 1, k);
        EarlierStands(list, n, p, q, k);
      } else if Separates(list, n - 1) {
        CompletedStands(list, n, p);
      } else {
        GrownStands(list, n, p);
      }
    }
  }

  lemma PiecesStep(list: string, n: nat)
    requires n <= |list|
    ensures n == 0 ==> |Pieces(list, n)| == 1 && StandsAt(list, n, Pieces(list, n), 0)
    ensures n > 0 ==>
              var p := Pieces(list, n - 1);
              Pieces(list, n) == if Separates(list, n - 1) then p + [""] else p[..|p| - 1] + [p[|p| - 1] + [list[n - 1]]]
  {
    if n == 0 {
      assert Pieces(list, 0)[0] == "" && list[0..0] == "";
    }
  }

  lemma EarlierStands(list: string, n: nat, p: seq<string>, q: seq<string>, k: nat)
    requires 0 < n <= |list| && k < |p| - 1 && |p| <= |q| && forall j :: 0 <= j <= k ==> p[j] == q[j]
    requires StandsAt(list, n - 1, p, k)
    ensures StandsAt(list, n, q, k)
  {
    hide Separates;
    OffsetIgnoresLater(p, q, k);
  }

  lemma CompletedStands(list: string, n: nat, p: seq<string>)
    requires 0 < n <= |list| && Separates(list, n - 1) && p != [] && StandsAt(list, n - 1, p, |p| - 1)
    ensures StandsAt(list, n, p + [""], |p|) && StandsAt(list, n, p + [""], |p| - 1)
  {
    hide Separates;
    var q := p + [""];
    OffsetIgnoresLater(p, q, |p| - 1);
    assert list[n..n] == "" && q[|p|] == "";
    assert Offset(q, |p|) == Offset(q, |p| - 1) + |p[|p| - 1]| + 1 == n;
  }

  lemma GrownStands(list: string, n: nat, p: seq<string>)
    requires 0 < n <= |list| && !Separates(list, n - 1) && p != [] && StandsAt(list, n - 1, p, |p| - 1)
    ensures StandsAt(list, n, p[..|p| - 1] + [p[|p| - 1] + [list[n - 1]]], |p| - 1)
  {
    hide Separates;
    var q := p[..|p| - 1] + [p[|p| - 1] + [list[n - 1]]];
    OffsetIgnoresLater(p, q, |p| - 1);
    SliceStep(list, Offset(p, |p| - 1), n - 1);
  }

  // ---------------------------------------------------------------- gainedOptionalParameters

  predicate WordCharacter(c: char) {
    'a' <= c <= 'z' || 'A' <= c <= 'Z' || IsDigit(c) || c == '_' || c == '$'
  }

  function WithoutDots(s: string, most: nat): string {
    if most > 0 && s != [] && s[0] == '.' then WithoutDots(s[1..], most - 1) else s
  }

  function AfterWord(s: string): string {
    if s != [] && WordCharacter(s[0]) then AfterWord(s[1..]) else s
  }

  /** At most three dots, a name, then `?:`. */
  predicate OptionalParameter(p: string) {
    var name := WithoutDots(p, 3);
    name != [] && WordCharacter(name[0]) && "?:" <= AfterWord(name)
  }

  ghost predicate GainedOptional(removed: string, added: string) {
    exists open, closeBefore, closeAfter :: GainedBetween(removed, added, open, closeBefore, closeAfter)
  }

  /** `added` is `removed` with optional parameters appended to the list opened at `open`, its first. */
  ghost predicate GainedBetween(removed: string, added: string, open: nat, closeBefore: nat, closeAfter: nat) {
    && IndexOf(removed, '(') == Some(open)
    && open < |added| && added[..open + 1] == removed[..open + 1]
    && Closes(removed, open, Some(closeBefore)) && Closes(added, open, Some(closeAfter))
    && open < closeBefore && open < closeAfter
    && removed[closeBefore..] == added[closeAfter..]
    && OptionalAppended(ParametersOf(removed[open + 1..closeBefore]), ParametersOf(added[open + 1..closeAfter]))
  }

  /** The old parameters first and unchanged, and at least one more, all of them optional. */
  ghost predicate OptionalAppended(before: seq<string>, after: seq<string>) {
    && |before| < |after|
    && (forall i :: 0 <= i < |before| ==> after[i] == before[i])
    && forall i :: |before| <= i < |after| ==> OptionalParameter(after[i])
  }

  method IsOptionalAppended(before: seq<string>, after: seq<string>) returns (r: bool)
    ensures r <==> OptionalAppended(before, after)
  {
    if |after| <= |before| {
      return false;
    }
    for i := 0 to |after|
      invariant forall k :: 0 <= k < i ==> if k < |before| then after[k] == before[k] else OptionalParameter(after[k])
    {
      if i < |before| && after[i] != before[i] {
        return false;
      }
      if i >= |before| && !OptionalParameter(after[i]) {
        return false;
      }
    }
    return true;
  }

  lemma ClosingIsUnique(text: string, open: nat, r: Option<nat>, s: Option<nat>)
    requires open <= |text| && Closes(text, open, r) && Closes(text, open, s)
    ensures r == s
  {
  }

  lemma ClosesAfterOpen(text: string, open: nat, i: nat)
    requires open < |text| && text[open] == '(' && Closes(text, open, Some(i))
    ensures open < i
  {
  }

  method GainedOptionalParameters(removed: string, added: string) returns (r: bool)
    ensures r <==> GainedOptional(removed, added)
  {
    hide ParametersOf, OptionalAppended, ClosesAt, IndexOf, GainedOptional;
    var found := IndexOf(removed, '(');
    NoListNoGain(removed, added);
    if found.None? {
      return false;
    }
    var open := found.value;
    if |added| <= open || added[..open + 1] != removed[..open + 1] {
      return false;
    }
    assert added[open] == added[..open + 1][open] == removed[open] == '(';
    var closeBefore := Closing(removed, open);
    var closeAfter := Closing(added, open);
    if closeBefore.None? || closeAfter.None? {
      NotClosed(removed, added, open, closeBefore, closeAfter);
      return false;
    }
    ClosesAfterOpen(removed, open, closeBefore.value);
    ClosesAfterOpen(added, open, closeAfter.value);
    OnlyBetween(removed, added, open, closeBefore.value, closeAfter.value);
    if removed[closeBefore.value..] != added[closeAfter.value..] {
      return false;
    }
    var before := Parameters(removed[open + 1..closeBefore.value]);
    var after := Parameters(added[open + 1..closeAfter.value]);
    r := IsOptionalAppended(before, after);
  }

  /** Without the same text up to the first list there is nothing to compare. */
  lemma NoListNoGain(removed: string, added: string)
    ensures var open := IndexOf(removed, '(');
            open.None? || |added| <= open.value || added[..open.value + 1] != removed[..open.value + 1]
            ==> !GainedOptional(removed, added)
  {
    hide ParametersOf, OptionalAppended, Closes, ClosesAt, IndexOf;
  }

  lemma NotClosed(removed: string, added: string, open: nat, x: Option<nat>, y: Option<nat>)
    requires IndexOf(removed, '(') == Some(open) && open < |added|
    requires Closes(removed, open, x) && Closes(added, open, y) && (x.None? || y.None?)
    ensures !GainedOptional(removed, added)
  {
    if GainedOptional(removed, added) {
      var o: nat, a: nat, b: nat :| GainedBetween(removed, added, o, a, b);
      ClosingIsUnique(removed, open, x, Some(a));
      ClosingIsUnique(added, open, y, Some(b));
    }
  }

  /** The opening and closing positions leave no choice. */
  lemma OnlyBetween(removed: string, added: string, open: nat, x: nat, y: nat)
    requires IndexOf(removed, '(') == Some(open) && open < |added|
    requires Closes(removed, open, Some(x)) && Closes(added, open, Some(y))
    ensures GainedOptional(removed, added) <==> GainedBetween(removed, added, open, x, y)
  {
    hide OptionalAppended, ParametersOf;
    if GainedOptional(removed, added) {
      var o: nat, a: nat, b: nat :| GainedBetween(removed, added, o, a, b);
      ClosingIsUnique(removed, open, Some(x), Some(a));
      ClosingIsUnique(added, open, Some(y), Some(b));
    }
  }

  lemma FirstIndex(s: string, c: char, i: nat)
    requires i < |s| && s[i] == c && c !in s[..i]
    ensures IndexOf(s, c) == Some(i)
  {
    var r := IndexOf(s, c);
    assert forall k :: 0 <= k < i ==> s[..i][k] == s[k];
    assert r.Some? && forall k :: 0 <= k < r.value ==> s[..r.value][k] == s[k];
  }

  lemma OptionalAppendedTransitive(a: seq<string>, b: seq<string>, c: seq<string>)
    requires OptionalAppended(a, b) && OptionalAppended(b, c)
    ensures OptionalAppended(a, c)
  {
    forall i | |a| <= i < |c| ensures OptionalParameter(c[i]) {
      if i < |b| {
        assert c[i] == b[i];
      }
    }
  }

  /** A declaration is never an extension of itself. */
  lemma GainedOptionalIrreflexive(a: string)
    ensures !GainedOptional(a, a)
  {
    hide ParametersOf;
    if GainedOptional(a, a) {
      var open: nat, x: nat, y: nat :| GainedBetween(a, a, open, x, y);
      ClosingIsUnique(a, open, Some(x), Some(y));
    }
  }

  /** Two harmless extensions in a row are one harmless extension. */
  lemma GainedOptionalTransitive(a: string, b: string, c: string)
    requires GainedOptional(a, b) && GainedOptional(b, c)
    ensures GainedOptional(a, c)
  {
    hide ParametersOf, OptionalAppended, ClosesAt, IndexOf;
    var open: nat, closeA: nat, closeB: nat :| GainedBetween(a, b, open, closeA, closeB);
    var open': nat, closeB': nat, closeC: nat :| GainedBetween(b, c, open', closeB', closeC);
    assert b[open] == b[..open + 1][open] && a[open] == a[..open + 1][open];
    assert b[..open] == b[..open + 1][..open] == a[..open + 1][..open] == a[..open];
    FirstIndex(b, '(', open);
    ClosingIsUnique(b, open, Some(closeB), Some(closeB'));
    OptionalAppendedTransitive(
      ParametersOf(a[open + 1..closeA]), ParametersOf(b[open + 1..closeB]), ParametersOf(c[open + 1..closeC]));
    assert GainedBetween(a, c, open, closeA, closeC);
  }
}
