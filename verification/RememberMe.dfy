/**
 Remember-me tokens: the cookie's text (packages/auth/src/RememberMe.ts), the visit that rotates the token
 (packages/auth/src/RememberMeMiddleware.ts), and the token column under any number of requests at once.

 Tokens are numbered in the order they are minted. `Scheme.raw` is the text of the n-th one and `Scheme.hash`
 what is stored of a text; both are assumed injective. The column is only ever written by saving a loaded copy
 of the user whose token was changed, because a save writes the columns that differ from what was loaded.
 A save that throws may have written all the same: its hooks run after the update, and an answer can be lost.
 */
module RememberMe {
  import opened Text
  import opened Wrappers

  // ---------------------------------------------------------------- the cookie's text

  /** `id|rawToken`. */
  function EncodeRememberValue(id: string, raw: string): string {
    id + "|" + raw
  }

  function ParseRememberValue(value: string): Option<(string, string)> {
    var bar := IndexOf(value, '|');
    if bar.None? then None
    else
      var id, token := value[..bar.value], value[bar.value + 1..];
      if id == "" || token == "" then None else Some((id, token))
  }

  lemma FirstBar(id: string, raw: string)
    requires '|' !in id
    ensures IndexOf(EncodeRememberValue(id, raw), '|') == Some(|id|)
  {
    var value := EncodeRememberValue(id, raw);
    assert value[|id|] == '|';
    var i := IndexOf(value, '|').value;
    assert forall k :: 0 <= k < |id| ==> value[k] == id[k];
    assert forall k :: 0 <= k < i ==> value[..i][k] == value[k];
  }

  /** The parts come back exactly when the id has no bar in it and neither part is empty. */
  lemma ParseInvertsEncode(id: string, raw: string)
    ensures ParseRememberValue(EncodeRememberValue(id, raw)) == Some((id, raw)) <==> id != "" && '|' !in id && raw != ""
  {
    var value := EncodeRememberValue(id, raw);
    if '|' !in id {
      FirstBar(id, raw);
      assert value[..|id|] == id && value[|id| + 1..] == raw;
    }
  }

  /** What parses is the encoding of its parts, and of no others. */
  lemma EncodeInvertsParse(value: string, id: string, raw: string)
    ensures ParseRememberValue(value) == Some((id, raw)) <==>
            value == EncodeRememberValue(id, raw) && id != "" && '|' !in id && raw != ""
  {
    ParseInvertsEncode(id, raw);
    var bar := IndexOf(value, '|');
    if bar.Some? {
      assert value == value[..bar.value] + "|" + value[bar.value + 1..];
    }
  }

  lemma {:induction false} DecimalHasNoBar(n: nat)
    ensures '|' !in Decimal(n) && Decimal(n) != ""
  {
    var s := Decimal(n);
    forall i | 0 <= i < |s| ensures s[i] != '|' {
      assert IsDigit(s[i]);
    }
  }

  // ---------------------------------------------------------------- tokens and copies of the user

  /** `number` is what `Number` makes of an id's text, `None` for NaN and the infinities. */
  datatype Scheme = Scheme(raw: nat -> string, hash: string -> string, number: string -> Option<nat>) {
    ghost predicate Sound() {
      && (forall a, b :: raw(a) == raw(b) ==> a == b)
      && (forall a, b :: hash(a) == hash(b) ==> a == b)
      && (forall a :: raw(a) != "")
      && (forall a :: hash(a) != "")
      && forall n: nat :: number(Decimal(n)) == Some(n)
    }

    function Stored(token: nat): Option<string> {
      Some(hash(raw(token)))
    }

    /** `rememberTokenMatches` behind its guard: an unset column matches nothing. */
    predicate Matches(stored: Option<string>, token: string) {
      stored.Some? && stored.value != "" && hash(token) == stored.value
    }
  }

  /** What is assumed of a scheme can be had. */
  lemma SoundSchemeExists() returns (m: Scheme)
    ensures m.Sound()
  {
    var number := (s: string) => if forall i :: 0 <= i < |s| ==> IsDigit(s[i]) then Some(ValueOf(s)) else None;
    m := Scheme((n: nat) => Decimal(n), (s: string) => "#" + s, number);
    forall a: nat, b: nat | Decimal(a) == Decimal(b) ensures a == b {
      DecimalInjective(a, b);
    }
    forall a: string, b: string | "#" + a == "#" + b ensures a == b {
      assert ("#" + a)[1..] == a && ("#" + b)[1..] == b;
    }
    forall n: nat ensures number(Decimal(n)) == Some(n) {
      ValueOfDecimal(n);
    }
  }

  /** What became of `save()`: done; nothing written; written, then a hook threw; written, and the answer never came. */
  datatype SaveOutcome = Saved | Refused | HookThrew | AnswerLost {
    predicate Lands() {
      !Refused?
    }

    /** The copy takes what it wrote for what is stored. */
    predicate Noted() {
      Saved? || HookThrew?
    }
  }

  /** A loaded user: the token it holds now and the one it was loaded with, or last saved. */
  datatype Copy = Copy(token: Option<string>, loaded: Option<string>) {
    predicate Dirty() {
      token != loaded
    }
  }

  // ---------------------------------------------------------------- any number of requests at once

  /** `past` collects every token the column has held, `lost` the copies that do not know their write landed. */
  datatype Column = Column(stored: Option<string>, minted: nat, copies: map<nat, Copy>, past: set<nat>, lost: set<nat>)

  datatype Step =
    | Load(copy: nat)
    | Issue(copy: nat)
    | Clear(copy: nat)
    | Save(copy: nat, outcome: SaveOutcome)

  function Written(m: Scheme, s: Column, c: nat, o: SaveOutcome): Column
    requires c in s.copies
  {
    var token := s.copies[c].token;
    s.(stored := token,
       copies := if o.Noted() then s.copies[c := s.copies[c].(loaded := token)] else s.copies,
       past := s.past + (set t | 0 <= t < s.minted && token == m.Stored(t)),
       lost := if o.Noted() then s.lost - {c} else s.lost + {c})
  }

  function Next(m: Scheme, s: Column, step: Step): Column {
    match step
    case Load(c) => s.(copies := s.copies[c := Copy(s.stored, s.stored)], lost := s.lost - {c})
    case Issue(c) =>
      if c !in s.copies then s
      else s.(copies := s.copies[c := s.copies[c].(token := m.Stored(s.minted))], minted := s.minted + 1, lost := s.lost - {c})
    case Clear(c) =>
      if c !in s.copies then s
      else s.(copies := s.copies[c := s.copies[c].(token := None)], lost := s.lost - {c})
    case Save(c, o) =>
      if c !in s.copies || !s.copies[c].Dirty() || !o.Lands() then s else Written(m, s, c, o)
  }

  function Exec(m: Scheme, s: Column, steps: seq<Step>): Column {
    if steps == [] then s else Next(m, Exec(m, s, steps[..|steps| - 1]), steps[|steps| - 1])
  }

  const UNSET := Column(None, 0, map[], {}, {})

  /** `u` holds token `t` and would write it. */
  ghost predicate Holds(m: Scheme, u: Copy, t: nat) {
    u.Dirty() && u.token == m.Stored(t)
  }

  ghost predicate Minted(m: Scheme, s: Column, u: Copy) {
    u.token.Some? ==> exists t :: 0 <= t < s.minted && u.token == m.Stored(t)
  }

  /** A token waiting to be saved is held by one copy, and has been in the column only if that copy's answer was lost. */
  ghost predicate Inv(m: Scheme, s: Column) {
    && (s.stored.Some? ==> exists t :: t in s.past && s.stored == m.Stored(t))
    && (forall t :: t in s.past ==> t < s.minted)
    && (forall c :: c in s.copies ==> Minted(m, s, s.copies[c]))
    && (forall c, t :: c in s.copies && 0 <= t < s.minted && Holds(m, s.copies[c], t) && t in s.past ==> c in s.lost)
    && (forall c :: c in s.lost ==> c in s.copies && s.copies[c].Dirty() && WasStored(m, s, s.copies[c]))
    && (forall c, d, t :: c in s.copies && d in s.copies && c != d && 0 <= t < s.minted && Holds(m, s.copies[c], t)
                          ==> !Holds(m, s.copies[d], t))
  }

  ghost predicate WasStored(m: Scheme, s: Column, u: Copy) {
    u.token.Some? ==> exists t :: t in s.past && u.token == m.Stored(t)
  }

  lemma LoadKeepsInv(m: Scheme, s: Column, c: nat)
    requires m.Sound() && Inv(m, s)
    ensures Inv(m, Next(m, s, Load(c)))
  {
    var n := Next(m, s, Load(c));
    if s.stored.Some? {
      var t :| t in s.past && s.stored == m.Stored(t);
      assert t < s.minted;
    }
    forall d | d in n.copies ensures Minted(m, n, n.copies[d]) {
      if d != c {
        assert Minted(m, s, s.copies[d]);
      }
    }
    forall d | d in n.lost ensures WasStored(m, n, n.copies[d]) {
      assert WasStored(m, s, s.copies[d]);
    }
  }

  lemma IssueKeepsInv(m: Scheme, s: Column, c: nat)
    requires m.Sound() && Inv(m, s) && c in s.copies
    ensures Inv(m, Next(m, s, Issue(c)))
  {
    var n := Next(m, s, Issue(c));
    forall d | d in n.copies ensures Minted(m, n, n.copies[d]) {
      if d == c {
        assert n.copies[d].token == m.Stored(s.minted);
      } else {
        assert Minted(m, s, s.copies[d]);
      }
    }
    forall d | d in n.lost ensures WasStored(m, n, n.copies[d]) {
      assert WasStored(m, s, s.copies[d]);
    }
    forall d, t | d in n.copies && 0 <= t < n.minted && Holds(m, n.copies[d], t) && d != c ensures t < s.minted && Holds(m, s.copies[d], t) {
      assert Minted(m, s, s.copies[d]);
    }
  }

  lemma ClearKeepsInv(m: Scheme, s: Column, c: nat)
    requires m.Sound() && Inv(m, s)
    ensures Inv(m, Next(m, s, Clear(c)))
  {
    var n := Next(m, s, Clear(c));
    forall d | d in n.lost ensures WasStored(m, n, n.copies[d]) {
      assert WasStored(m, s, s.copies[d]);
    }
  }

  lemma SaveKeepsInv(m: Scheme, s: Column, c: nat, o: SaveOutcome)
    requires m.Sound() && Inv(m, s) && c in s.copies && s.copies[c].Dirty() && o.Lands()
    ensures Inv(m, Written(m, s, c, o))
  {
    var n := Written(m, s, c, o);
    var u := s.copies[c];
    assert Minted(m, s, u);
    if u.token.Some? {
      var t :| 0 <= t < s.minted && u.token == m.Stored(t);
      assert t in n.past;
    }
    forall d | d in n.copies ensures Minted(m, n, n.copies[d]) {
      assert Minted(m, s, s.copies[d]);
    }
    SaveKeepsHolders(m, s, c, o);
    forall d | d in n.lost ensures WasStored(m, n, n.copies[d]) {
      if d in s.lost {
        assert WasStored(m, s, s.copies[d]);
      }
    }
  }

  lemma SaveKeepsHolders(m: Scheme, s: Column, c: nat, o: SaveOutcome)
    requires m.Sound() && Inv(m, s) && c in s.copies && s.copies[c].Dirty() && o.Lands()
    ensures var n := Written(m, s, c, o);
            forall d, t :: d in n.copies && 0 <= t < n.minted && Holds(m, n.copies[d], t) && t in n.past ==> d in n.lost
  {
    var n := Written(m, s, c, o);
    forall d, t | d in n.copies && 0 <= t < n.minted && Holds(m, n.copies[d], t) && t in n.past ensures d in n.lost {
      assert Holds(m, s.copies[d], t);
      assert Holds(m, s.copies[c], t) <==> s.copies[c].token == m.Stored(t);
    }
  }

  lemma NextKeepsInv(m: Scheme, s: Column, step: Step)
    requires m.Sound() && Inv(m, s)
    ensures Inv(m, Next(m, s, step))
  {
    hide Inv;
    match step
    case Load(c) => LoadKeepsInv(m, s, c);
    case Issue(c) => if c in s.copies { IssueKeepsInv(m, s, c); }
    case Clear(c) => ClearKeepsInv(m, s, c);
    case Save(c, o) => if c in s.copies && s.copies[c].Dirty() && o.Lands() { SaveKeepsInv(m, s, c, o); }
  }

  lemma {:induction false} ExecKeepsInv(m: Scheme, s: Column, steps: seq<Step>)
    requires m.Sound() && Inv(m, s)
    ensures Inv(m, Exec(m, s, steps))
  {
    if steps != [] {
      ExecKeepsInv(m, s, steps[..|steps| - 1]);
      NextKeepsInv(m, Exec(m, s, steps[..|steps| - 1]), steps[|steps| - 1]);
    }
  }

  lemma {:induction false} ExecAppend(m: Scheme, s: Column, a: seq<Step>, b: seq<Step>)
    ensures Exec(m, s, a + b) == Exec(m, Exec(m, s, a), b)
  {
    if b == [] {
      assert a + b == a;
    } else {
      ExecAppend(m, s, a, b[..|b| - 1]);
      assert (a + b)[..|a + b| - 1] == a + b[..|b| - 1];
    }
  }

  lemma {:induction false} PastStays(m: Scheme, s: Column, steps: seq<Step>, t: nat)
    requires t in s.past
    ensures t in Exec(m, s, steps).past
  {
    if steps != [] {
      PastStays(m, s, steps[..|steps| - 1], t);
    }
  }

  /** A write by a copy that has written this very token before and never heard of it, with another token stored since. */
  predicate WritesAgain(s: Column, step: Step) {
    && step.Save? && step.copy in s.lost && step.copy in s.copies && step.outcome.Lands()
    && s.copies[step.copy].token.Some? && s.copies[step.copy].token != s.stored
  }

  /** The step puts back a token that was stored before and is not now. */
  ghost predicate BringsBack(m: Scheme, s: Column, step: Step) {
    exists t :: t in s.past && s.stored != m.Stored(t) && Next(m, s, step).stored == m.Stored(t)
  }

  /** A step brings a former token back exactly when it repeats a write whose answer was lost. */
  lemma BringsBackIff(m: Scheme, s: Column, step: Step)
    requires m.Sound() && Inv(m, s)
    ensures BringsBack(m, s, step) <==> WritesAgain(s, step)
  {
    if WritesAgain(s, step) {
      assert WasStored(m, s, s.copies[step.copy]);
      var t :| t in s.past && s.copies[step.copy].token == m.Stored(t);
      assert Next(m, s, step).stored == m.Stored(t);
    }
    if BringsBack(m, s, step) {
      var t :| t in s.past && s.stored != m.Stored(t) && Next(m, s, step).stored == m.Stored(t);
      assert Holds(m, s.copies[step.copy], t) && t < s.minted;
    }
  }

  /** No step of a run repeats a write whose answer was lost. */
  ghost predicate NeverWritesAgain(m: Scheme, s: Column, steps: seq<Step>) {
    forall k :: 0 <= k < |steps| ==> !WritesAgain(Exec(m, s, steps[..k]), steps[k])
  }

  lemma {:induction false} NeverBack(m: Scheme, s: Column, steps: seq<Step>, t: nat)
    requires m.Sound() && Inv(m, s) && t in s.past && s.stored != m.Stored(t)
    requires NeverWritesAgain(m, s, steps)
    ensures Exec(m, s, steps).stored != m.Stored(t)
  {
    if steps != [] {
      var init, last := steps[..|steps| - 1], steps[|steps| - 1];
      forall k | 0 <= k < |init| ensures !WritesAgain(Exec(m, s, init[..k]), init[k]) {
        assert init[..k] == steps[..k];
        assert !WritesAgain(Exec(m, s, steps[..k]), steps[k]);
      }
      NeverBack(m, s, init, t);
      PastStays(m, s, init, t);
      ExecKeepsInv(m, s, init);
      assert !WritesAgain(Exec(m, s, steps[..|init|]), last);
      BringsBackIff(m, Exec(m, s, init), last);
    }
  }

  /** At any moment at most one raw token lets its holder in. */
  lemma OneTokenAuthenticates(m: Scheme, s: Column, a: string, b: string)
    requires m.Sound() && m.Matches(s.stored, a) && m.Matches(s.stored, b)
    ensures a == b
  {
  }

  /**
   Whatever requests do, in whatever order, and whatever becomes of their saves: a raw token that let its holder in
   and then stopped doing so never does again, unless a copy repeats a write whose answer was lost.
   */
  lemma RotatedOutForGood(m: Scheme, steps: seq<Step>, i: nat, j: nat, raw: string)
    requires m.Sound() && i <= j <= |steps| && NeverWritesAgain(m, UNSET, steps)
    requires m.Matches(Exec(m, UNSET, steps[..i]).stored, raw) && !m.Matches(Exec(m, UNSET, steps[..j]).stored, raw)
    ensures !m.Matches(Exec(m, UNSET, steps).stored, raw)
  {
    hide *;
    var then_, now := Exec(m, UNSET, steps[..i]), Exec(m, UNSET, steps[..j]);
    UnsetInv(m);
    ExecKeepsInv(m, UNSET, steps[..i]);
    ExecKeepsInv(m, UNSET, steps[..j]);
    var t := TokenStored(m, then_, raw);
    MatchesIff(m, now.stored, t);
    MatchesIff(m, Exec(m, UNSET, steps).stored, t);
    assert steps[..j] == steps[..i] + steps[i..j] && steps == steps[..j] + steps[j..];
    ExecAppend(m, UNSET, steps[..i], steps[i..j]);
    ExecAppend(m, UNSET, steps[..j], steps[j..]);
    PastStays(m, then_, steps[i..j], t);
    LaterSteps(m, steps, j);
    NeverBack(m, now, steps[j..], t);
  }

  lemma UnsetInv(m: Scheme)
    ensures Inv(m, UNSET)
  {
  }

  lemma TokenStored(m: Scheme, s: Column, raw: string) returns (t: nat)
    requires m.Sound() && Inv(m, s) && m.Matches(s.stored, raw)
    ensures t in s.past && s.stored == m.Stored(t) && raw == m.raw(t)
  {
    t :| t in s.past && s.stored == m.Stored(t);
  }

  lemma MatchesIff(m: Scheme, stored: Option<string>, t: nat)
    requires m.Sound()
    ensures m.Matches(stored, m.raw(t)) <==> stored == m.Stored(t)
  {
  }

  lemma LaterSteps(m: Scheme, steps: seq<Step>, j: nat)
    requires j <= |steps| && NeverWritesAgain(m, UNSET, steps)
    ensures NeverWritesAgain(m, Exec(m, UNSET, steps[..j]), steps[j..])
  {
    hide Exec, WritesAgain;
    forall k | 0 <= k < |steps[j..]| ensures !WritesAgain(Exec(m, Exec(m, UNSET, steps[..j]), steps[j..][..k]), steps[j..][k]) {
      assert steps[..j] + steps[j..][..k] == steps[..j + k];
      ExecAppend(m, UNSET, steps[..j], steps[j..][..k]);
    }
  }

  lemma ExecTo(m: Scheme, steps: seq<Step>, k: nat, next: nat)
    requires k < |steps| && next == k + 1
    ensures Exec(m, UNSET, steps[..next]) == Next(m, Exec(m, UNSET, steps[..k]), steps[k])
  {
    assert steps[..next][..k] == steps[..k];
  }

  /** A run in which that happens: the first request's answer is lost, the second rotates, the first saves again. */
  lemma LostAnswerBringsBack(m: Scheme)
    requires m.Sound()
    ensures var steps := [Load(0), Issue(0), Save(0, AnswerLost), Load(1), Issue(1), Save(1, Saved), Save(0, Saved)];
            && m.Matches(Exec(m, UNSET, steps[..3]).stored, m.raw(0))
            && !m.Matches(Exec(m, UNSET, steps[..6]).stored, m.raw(0))
            && m.Matches(Exec(m, UNSET, steps).stored, m.raw(0))
  {
    var steps := [Load(0), Issue(0), Save(0, AnswerLost), Load(1), Issue(1), Save(1, Saved), Save(0, Saved)];
    assert steps[..0] == [] && steps[..7] == steps;
    var s3 := Next(m, Next(m, Next(m, UNSET, Load(0)), Issue(0)), Save(0, AnswerLost));
    var s6 := Next(m, Next(m, Next(m, s3, Load(1)), Issue(1)), Save(1, Saved));
    LostThenRotated(m, s3);
    hide Next;
    ExecTo(m, steps, 0, 1);
    ExecTo(m, steps, 1, 2);
    ExecTo(m, steps, 2, 3);
    assert s3 == Exec(m, UNSET, steps[..3]);
    ExecTo(m, steps, 3, 4);
    ExecTo(m, steps, 4, 5);
    ExecTo(m, steps, 5, 6);
    assert s6 == Exec(m, UNSET, steps[..6]);
    ExecTo(m, steps, 6, 7);
  }

  lemma LostThenRotated(m: Scheme, s: Column)
    requires m.Sound() && s == Next(m, Next(m, Next(m, UNSET, Load(0)), Issue(0)), Save(0, AnswerLost))
    ensures s.stored == m.Stored(0)
    ensures var t := Next(m, Next(m, Next(m, s, Load(1)), Issue(1)), Save(1, Saved));
            t.stored == m.Stored(1) && Next(m, t, Save(0, Saved)).stored == m.Stored(0)
  {
    assert s.copies[0] == Copy(m.Stored(0), None) && s.minted == 1;
    var t2 := Next(m, Next(m, s, Load(1)), Issue(1));
    assert t2.copies[1] == Copy(m.Stored(1), m.Stored(0)) && t2.copies[0] == s.copies[0];
  }

  // ---------------------------------------------------------------- one visit

  datatype Action = SetCookie(value: string) | ClearCookie

  class UserRow {
    const id: nat
    var token: Option<string>

    constructor (id: nat)
      ensures this.id == id && token == None
    {
      this.id, token := id, None;
    }
  }

  class UserModel {
    const row: UserRow
    var token: Option<string>
    var loaded: Option<string>

    constructor (row: UserRow)
      ensures this.row == row && token == row.token && loaded == row.token
    {
      this.row, token, loaded := row, row.token, row.token;
    }

    method SetRememberToken(value: Option<string>)
      modifies this
      ensures token == value && loaded == old(loaded)
    {
      token := value;
    }

    /** `false` when it throws. */
    method Save(outcome: SaveOutcome) returns (ok: bool)
      modifies this, row
      ensures ok == outcome.Saved? && token == old(token)
      ensures row.token == if old(token) != old(loaded) && outcome.Lands() then token else old(row.token)
      ensures loaded == if old(token) != old(loaded) && outcome.Noted() then token else old(loaded)
    {
      if token != loaded {
        if outcome.Lands() {
          row.token := token;
        }
        if outcome.Noted() {
          loaded := token;
        }
      }
      return outcome.Saved?;
    }
  }

  class Context {
    var user: UserModel?
    var viaRemember: bool
    var sessionUser: Option<nat>
    var action: Option<Action>

    constructor (user: UserModel?)
      ensures this.user == user && !viaRemember && action == None && sessionUser == None
    {
      this.user, viaRemember, sessionUser, action := user, false, None, None;
    }
  }

  /** What a cookie lets in: its text parses, names the row, and carries the stored token. */
  predicate Admits(m: Scheme, id: nat, stored: Option<string>, cookie: Option<string>) {
    cookie.Some? &&
    var parsed := ParseRememberValue(cookie.value);
    parsed.Some? && m.number(parsed.value.0) == Some(id) && m.Matches(stored, parsed.value.1)
  }

  /** The cookie that carries token `t`. */
  function CookieOf(m: Scheme, id: nat, t: nat): string {
    EncodeRememberValue(Decimal(id), m.raw(t))
  }

  /** `_rotate`; returns how many tokens have been minted. */
  method Rotate(m: Scheme, http: Context, user: UserModel, minted: nat, outcome: SaveOutcome) returns (next: nat)
    requires m.Sound() && user.token == user.loaded == user.row.token
    requires user.row.token != m.Stored(minted)
    modifies http`action, user, user.row
    ensures next == minted + 1 && user.token == m.Stored(minted)
    ensures user.row.token == if outcome.Lands() then m.Stored(minted) else old(user.row.token)
    ensures user.loaded == if outcome.Noted() then m.Stored(minted) else old(user.row.token)
    ensures http.action == if outcome.Saved? then Some(SetCookie(CookieOf(m, user.row.id, minted))) else old(http.action)
  {
    next := minted + 1;
    user.SetRememberToken(m.Stored(minted));
    var ok := user.Save(outcome);
    if !ok {
      return;
    }
    http.action := Some(SetCookie(EncodeRememberValue(Decimal(user.row.id), m.raw(minted))));
  }

  /** `_attemptFromCookie`. `loads` is whether the loader answers with the row it is asked for. */
  method AttemptFromCookie(m: Scheme, http: Context, row: UserRow, cookie: Option<string>, minted: nat, loads: bool, outcome: SaveOutcome)
    returns (next: nat)
    requires m.Sound() && row.token != m.Stored(minted)
    requires http.user == null && http.action == None && !http.viaRemember && http.sessionUser == None
    modifies http, row
    ensures http.user != null <==> loads && Admits(m, row.id, old(row.token), cookie)
    ensures http.viaRemember == (http.user != null) && http.sessionUser == if http.user != null then Some(row.id) else None
    ensures http.user == null ==> next == minted && row.token == old(row.token) && http.action == None
    ensures http.user != null ==>
              && fresh(http.user) && http.user.row == row && next == minted + 1
              && http.user.token == m.Stored(minted)
              && http.user.loaded == (if outcome.Noted() then m.Stored(minted) else old(row.token))
              && row.token == (if outcome.Lands() then m.Stored(minted) else old(row.token))
              && http.action == if outcome.Saved? then Some(SetCookie(CookieOf(m, row.id, minted))) else None
  {
    next := minted;
    if cookie.None? {
      return;
    }
    var parsed := ParseRememberValue(cookie.value);
    if parsed.None? || m.number(parsed.value.0) != Some(row.id) || !loads {
      return;
    }
    var user := new UserModel(row);
    if !m.Matches(user.token, parsed.value.1) {
      return;
    }
    http.user := user;
    http.viaRemember := true;
    http.sessionUser := Some(row.id);
    next := Rotate(m, http, user, minted, outcome);
  }

  /**
   One visit. `expired`: the session restores nobody. `loads`: the loader answers. `rotation`: what becomes of the save
   of the new token. `saves`: of the handler's own saves of the user it was given. `returns_`: the handler does not
   throw. `arrives`: the browser gets the response.
   */
  datatype Visit = Visit(expired: bool, loads: bool, rotation: SaveOutcome, saves: seq<SaveOutcome>, returns_: bool, arrives: bool)

  predicate AnyLands(saves: seq<SaveOutcome>) {
    saves != [] && (AnyLands(saves[..|saves| - 1]) || saves[|saves| - 1].Lands())
  }

  /** The column, the tokens minted so far, and the cookie in the one browser that has one. */
  datatype World = World(stored: Option<string>, minted: nat, cookie: Option<string>)

  function AfterVisit(m: Scheme, id: nat, w: World, v: Visit): World {
    if !v.expired || !v.loads || !Admits(m, id, w.stored, w.cookie) then w
    else
      World(if v.rotation.Lands() || AnyLands(v.saves) then m.Stored(w.minted) else w.stored,
            w.minted + 1,
            if v.rotation.Saved? && v.returns_ && v.arrives then Some(CookieOf(m, id, w.minted)) else w.cookie)
  }

  /** The handler saves the user it finds on the context. */
  method HandlerSaves(http: Context, row: UserRow, saves: seq<SaveOutcome>)
    requires http.user != null ==> http.user.row == row
    modifies http.user, row
    ensures http.user == null ==> row.token == old(row.token)
    ensures http.user != null ==>
              row.token == if old(http.user.token != http.user.loaded) && AnyLands(saves) then old(http.user.token) else old(row.token)
  {
    var user := http.user;
    ghost var dirty := user != null && user.token != user.loaded;
    for i := 0 to |saves|
      invariant user != null ==> user.token == old(user.token)
      invariant user != null ==> user.loaded == old(user.loaded) || (AnyLands(saves[..i]) && user.loaded == user.token)
      invariant row.token == if dirty && AnyLands(saves[..i]) then old(user.token) else old(row.token)
    {
      assert saves[..i + 1][..i] == saves[..i];
      if user != null {
        var ok := user.Save(saves[i]);
      }
    }
    assert saves[..|saves|] == saves;
  }

  /** `handle` around such a handler. */
  method Handle(m: Scheme, row: UserRow, cookie: Option<string>, minted: nat, v: Visit) returns (kept: Option<string>, next: nat)
    requires m.Sound() && row.token != m.Stored(minted)
    modifies row
    ensures World(row.token, next, kept) == AfterVisit(m, row.id, World(old(row.token), minted, cookie), v)
  {
    kept, next := cookie, minted;
    var http := new Context(null);
    if v.expired {
      next := AttemptFromCookie(m, http, row, cookie, minted, v.loads, v.rotation);
    } else {
      var restored := new UserModel(row);
      http.user := restored;
    }
    HandlerSaves(http, row, v.saves);
    if v.returns_ && v.arrives && http.action.Some? {
      kept := if http.action.value.SetCookie? then Some(http.action.value.value) else None;
    }
  }

  // ---------------------------------------------------------------- one browser, visit after visit

  function AfterVisits(m: Scheme, id: nat, w: World, vs: seq<Visit>): World {
    if vs == [] then w else AfterVisit(m, id, AfterVisits(m, id, w, vs[..|vs| - 1]), vs[|vs| - 1])
  }

  /** The cookie carries token `a`, the column token `b`. */
  ghost predicate Carries(m: Scheme, id: nat, w: World, a: nat, b: nat) {
    a < w.minted && b < w.minted && w.cookie == Some(CookieOf(m, id, a)) && w.stored == m.Stored(b)
  }

  /** A visit after which the browser still holds the token that is stored. */
  predicate Keeps(v: Visit) {
    v.expired && v.loads ==>
      if v.rotation.Saved? then v.returns_ && v.arrives else v.rotation.Refused? && !AnyLands(v.saves)
  }

  lemma AdmitsIff(m: Scheme, id: nat, a: nat, b: nat)
    requires m.Sound()
    ensures Admits(m, id, m.Stored(b), Some(CookieOf(m, id, a))) <==> a == b
  {
    DecimalHasNoBar(id);
    ParseInvertsEncode(Decimal(id), m.raw(a));
  }

  lemma {:induction false} VisitsCarry(m: Scheme, id: nat, w: World, a: nat, vs: seq<Visit>) returns (x: nat, y: nat)
    requires m.Sound() && Carries(m, id, w, a, a)
    ensures Carries(m, id, AfterVisits(m, id, w, vs), x, y)
    ensures x == y <==> forall i :: 0 <= i < |vs| ==> Keeps(vs[i])
  {
    if vs == [] {
      x, y := a, a;
    } else {
      var init, v := vs[..|vs| - 1], vs[|vs| - 1];
      x, y := VisitsCarry(m, id, w, a, init);
      var before := AfterVisits(m, id, w, init);
      assert forall i :: 0 <= i < |init| ==> init[i] == vs[i];
      AdmitsIff(m, id, x, y);
      hide Admits, CookieOf;
      if v.expired && v.loads && x == y {
        x := if v.rotation.Saved? && v.returns_ && v.arrives then before.minted else x;
        y := if v.rotation.Lands() || AnyLands(v.saves) then before.minted else y;
      }
    }
  }

  /**
   A browser that starts with the stored token and makes one request at a time is let in at the end exactly when each
   visit either needed no remembered login, or rotated and had its response delivered, or had its rotation refused with
   nothing written and a handler that wrote nothing either.
   */
  lemma StillRememberedIff(m: Scheme, id: nat, w: World, a: nat, vs: seq<Visit>)
    requires m.Sound() && Carries(m, id, w, a, a)
    ensures var end := AfterVisits(m, id, w, vs);
            Admits(m, id, end.stored, end.cookie) <==> forall i :: 0 <= i < |vs| ==> Keeps(vs[i])
  {
    var x, y := VisitsCarry(m, id, w, a, vs);
    AdmitsIff(m, id, x, y);
  }

  /**
   The pair the source sets out not to desynchronise parts company after a rotation that is refused and a handler
   that saves the user, and after a rotation that is written and throws, whatever the handler does.
   */
  lemma FailedRotations(m: Scheme, id: nat, w: World, a: nat, v: Visit)
    requires m.Sound() && Carries(m, id, w, a, a) && v.expired && v.loads
    requires (v.rotation.Refused? && AnyLands(v.saves)) || v.rotation.HookThrew? || v.rotation.AnswerLost?
    ensures var end := AfterVisits(m, id, w, [v]); !Admits(m, id, end.stored, end.cookie)
  {
    StillRememberedIff(m, id, w, a, [v]);
    assert !Keeps([v][0]);
  }

  // ---------------------------------------------------------------- one browser, requests that overlap

  /** A request on its way: the cookie it was sent with, the token minted for it, and the cookie queued on its response. */
  datatype Request = Request(sent: Option<string>, token: Option<nat>, rotated: bool, reply: Option<string>)

  /** `writers` lists the requests that wrote the column, `heard` those whose cookie the browser took, in order. */
  datatype Browser = Browser(
    column: Column,
    cookie: Option<string>,
    requests: map<nat, Request>,
    writers: seq<nat>,
    heard: seq<nat>)

  datatype Turn =
    | Send(r: nat)
    | Look(r: nat)                              // the user is loaded, and on a match a token is minted
    | Rotation(r: nat, outcome: SaveOutcome)    // its save
    | HandlerSave(r: nat, outcome: SaveOutcome)
    | Hear(r: nat)                              // the response arrives with its cookie

  function Saving(m: Scheme, b: Browser, r: nat, o: SaveOutcome): Browser
    requires r in b.column.copies
  {
    b.(column := Next(m, b.column, Save(r, o)),
       writers := if b.column.copies[r].Dirty() && o.Lands() then b.writers + [r] else b.writers)
  }

  function Marked(b: Browser, r: nat): Browser
    requires r in b.requests
  {
    b.(requests := b.requests[r := b.requests[r].(rotated := true)])
  }

  /** The cookie is queued only when the save returned. */
  function Queued(m: Scheme, id: nat, b: Browser, r: nat, o: SaveOutcome): Browser
    requires r in b.requests && b.requests[r].token.Some?
  {
    if !o.Saved? then b
    else b.(requests := b.requests[r := b.requests[r].(reply := Some(CookieOf(m, id, b.requests[r].token.value)))])
  }

  function NextTurn(m: Scheme, id: nat, b: Browser, turn: Turn): Browser {
    match turn
    case Send(r) => if r in b.requests then b else b.(requests := b.requests[r := Request(b.cookie, None, false, None)])
    case Look(r) =>
      if r !in b.requests || r in b.column.copies then b
      else
        var loaded := Next(m, b.column, Load(r));
        if Admits(m, id, b.column.stored, b.requests[r].sent) then
          b.(column := Next(m, loaded, Issue(r)), requests := b.requests[r := b.requests[r].(token := Some(b.column.minted))])
        else b.(column := loaded)
    case Rotation(r, o) =>
      if r !in b.requests || r !in b.column.copies || b.requests[r].token.None? || b.requests[r].rotated then b
      else
        Queued(m, id, Saving(m, Marked(b, r), r, o), r, o)
    case HandlerSave(r, o) =>
      if r !in b.requests || r !in b.column.copies || !b.requests[r].rotated then b else Saving(m, b, r, o)
    case Hear(r) =>
      if r !in b.requests || b.requests[r].reply.None? then b
      else b.(cookie := b.requests[r].reply, heard := b.heard + [r], requests := b.requests[r := b.requests[r].(reply := None)])
  }

  function Turns(m: Scheme, id: nat, b: Browser, turns: seq<Turn>): Browser {
    if turns == [] then b else NextTurn(m, id, Turns(m, id, b, turns[..|turns| - 1]), turns[|turns| - 1])
  }

  /** A browser that holds the stored token `a`, with nothing under way. */
  function InStep(m: Scheme, id: nat, a: nat, minted: nat): Browser {
    Browser(Column(m.Stored(a), minted, map[], {a}, {}), Some(CookieOf(m, id, a)), map[], [], [])
  }

  ghost predicate RequestOk(m: Scheme, id: nat, a: nat, b: Browser, r: nat)
    requires r in b.requests
  {
    var q := b.requests[r];
    && (q.token.Some? ==>
          && a != q.token.value < b.column.minted && r in b.column.copies
          && b.column.copies[r].token == m.Stored(q.token.value)
          && (!q.rotated ==> b.column.copies[r].Dirty()))
    && (q.token.None? ==> !q.rotated && q.reply.None?)
    && (q.reply.Some? ==> q.token.Some? && q.reply.value == CookieOf(m, id, q.token.value) && r in b.writers)
  }

  ghost predicate Rotator(b: Browser, r: nat) {
    r in b.requests && b.requests[r].token.Some?
  }

  /** The token of the last of `rs`, or `a`. */
  ghost function LastToken(b: Browser, rs: seq<nat>, a: nat): nat {
    if rs != [] && Rotator(b, rs[|rs| - 1]) then b.requests[rs[|rs| - 1]].token.value else a
  }

  ghost predicate BrowserInv(m: Scheme, id: nat, a: nat, b: Browser) {
    && a < b.column.minted
    && (forall r :: r in b.requests ==> RequestOk(m, id, a, b, r))
    && (forall r, q :: Rotator(b, r) && Rotator(b, q) && r != q ==> b.requests[r].token != b.requests[q].token)
    && (forall r :: r in b.writers ==> Rotator(b, r))
    && (forall r :: r in b.heard ==> r in b.writers)
    && LastToken(b, b.writers, a) < b.column.minted
    && b.column.stored == m.Stored(LastToken(b, b.writers, a))
    && b.cookie == Some(CookieOf(m, id, LastToken(b, b.heard, a)))
  }

  lemma LookIs(m: Scheme, id: nat, b: Browser, r: nat)
    requires r in b.requests && r !in b.column.copies
    ensures var n := NextTurn(m, id, b, Look(r));
            && n.writers == b.writers && n.heard == b.heard && n.cookie == b.cookie && n.column.stored == b.column.stored
            && n.column.minted >= b.column.minted && n.requests.Keys == b.requests.Keys
            && (forall q :: q in b.column.copies ==> q in n.column.copies && n.column.copies[q] == b.column.copies[q])
            && (forall q :: q in b.requests && q != r ==> n.requests[q] == b.requests[q])
            && (n.requests[r] == b.requests[r]
                || (&& n.requests[r] == b.requests[r].(token := Some(b.column.minted)) && n.column.minted == b.column.minted + 1
                    && r in n.column.copies && n.column.copies[r] == Copy(m.Stored(b.column.minted), b.column.stored)))
  {
    hide Admits;
  }

  lemma LookKeepsInv(m: Scheme, id: nat, a: nat, b: Browser, r: nat)
    requires m.Sound() && BrowserInv(m, id, a, b) && r in b.requests && r !in b.column.copies
    ensures BrowserInv(m, id, a, NextTurn(m, id, b, Look(r)))
  {
    hide CookieOf, NextTurn;
    LookIs(m, id, b, r);
    var n := NextTurn(m, id, b, Look(r));
    assert RequestOk(m, id, a, b, r) && !Rotator(b, r);
    forall q | q in n.requests ensures RequestOk(m, id, a, n, q) {
      assert RequestOk(m, id, a, b, q);
    }
    SameTokens(b, n, b.writers, a);
    SameTokens(b, n, b.heard, a);
  }

  /** Requests that had a token keep it. */
  lemma SameTokens(b: Browser, n: Browser, rs: seq<nat>, a: nat)
    requires forall r :: r in rs ==> Rotator(b, r)
    requires forall r :: Rotator(b, r) ==> Rotator(n, r) && n.requests[r].token == b.requests[r].token
    ensures LastToken(n, rs, a) == LastToken(b, rs, a)
  {
    if rs != [] {
      assert rs[|rs| - 1] in rs;
    }
  }

  lemma SavingKeepsInv(m: Scheme, id: nat, a: nat, b: Browser, r: nat, o: SaveOutcome)
    requires m.Sound() && BrowserInv(m, id, a, b) && Rotator(b, r) && b.requests[r].rotated && r in b.column.copies
    ensures BrowserInv(m, id, a, Saving(m, b, r, o))
    ensures o.Lands() && b.column.copies[r].Dirty() ==> r in Saving(m, b, r, o).writers
  {
    hide CookieOf;
    var n := Saving(m, b, r, o);
    assert RequestOk(m, id, a, b, r);
    forall q | q in n.requests ensures RequestOk(m, id, a, n, q) {
      assert RequestOk(m, id, a, b, q);
    }
    SameTokens(b, n, b.heard, a);
    SameTokens(b, n, b.writers, a);
  }

  lemma MarkedKeepsInv(m: Scheme, id: nat, a: nat, b: Browser, r: nat)
    requires BrowserInv(m, id, a, b) && Rotator(b, r)
    ensures BrowserInv(m, id, a, Marked(b, r)) && Rotator(Marked(b, r), r)
  {
    hide CookieOf;
    var n := Marked(b, r);
    forall q | q in n.requests ensures RequestOk(m, id, a, n, q) {
      assert RequestOk(m, id, a, b, q);
    }
    SameTokens(b, n, b.heard, a);
    SameTokens(b, n, b.writers, a);
  }

  lemma QueuedKeepsInv(m: Scheme, id: nat, a: nat, b: Browser, r: nat, o: SaveOutcome)
    requires BrowserInv(m, id, a, b) && Rotator(b, r) && (o.Saved? ==> r in b.writers)
    ensures BrowserInv(m, id, a, Queued(m, id, b, r, o))
  {
    hide CookieOf;
    var n := Queued(m, id, b, r, o);
    forall q | q in n.requests ensures RequestOk(m, id, a, n, q) {
      assert RequestOk(m, id, a, b, q);
    }
    SameTokens(b, n, b.heard, a);
    SameTokens(b, n, b.writers, a);
  }

  lemma RotationIs(m: Scheme, id: nat, b: Browser, r: nat, o: SaveOutcome)
    requires Rotator(b, r) && !b.requests[r].rotated && r in b.column.copies
    ensures NextTurn(m, id, b, Rotation(r, o)) == Queued(m, id, Saving(m, Marked(b, r), r, o), r, o)
    ensures Marked(b, r).column == b.column && Marked(b, r).requests[r].rotated
    ensures Rotator(Saving(m, Marked(b, r), r, o), r)
  {
    hide CookieOf, Next;
  }

  lemma TokenIsDirty(m: Scheme, id: nat, a: nat, b: Browser, r: nat)
    requires BrowserInv(m, id, a, b) && Rotator(b, r) && !b.requests[r].rotated
    ensures r in b.column.copies && b.column.copies[r].Dirty()
  {
    assert RequestOk(m, id, a, b, r);
  }

  lemma RotationKeepsInv(m: Scheme, id: nat, a: nat, b: Browser, r: nat, o: SaveOutcome)
    requires m.Sound() && BrowserInv(m, id, a, b) && Rotator(b, r) && !b.requests[r].rotated && r in b.column.copies
    ensures BrowserInv(m, id, a, NextTurn(m, id, b, Rotation(r, o)))
  {
    TokenIsDirty(m, id, a, b, r);
    RotationIs(m, id, b, r, o);
    hide BrowserInv, NextTurn, Saving, Queued, CookieOf;
    MarkedKeepsInv(m, id, a, b, r);
    SavingKeepsInv(m, id, a, Marked(b, r), r, o);
    QueuedKeepsInv(m, id, a, Saving(m, Marked(b, r), r, o), r, o);
  }

  lemma SendKeepsInv(m: Scheme, id: nat, a: nat, b: Browser, r: nat)
    requires BrowserInv(m, id, a, b) && r !in b.requests
    ensures BrowserInv(m, id, a, NextTurn(m, id, b, Send(r)))
  {
    hide CookieOf;
    var n := NextTurn(m, id, b, Send(r));
    forall q | q in n.requests ensures RequestOk(m, id, a, n, q) {
      if q != r {
        assert RequestOk(m, id, a, b, q);
      }
    }
    SameTokens(b, n, b.heard, a);
    SameTokens(b, n, b.writers, a);
  }

  lemma HearKeepsInv(m: Scheme, id: nat, a: nat, b: Browser, r: nat)
    requires BrowserInv(m, id, a, b) && r in b.requests && b.requests[r].reply.Some?
    ensures BrowserInv(m, id, a, NextTurn(m, id, b, Hear(r)))
  {
    hide CookieOf;
    var n := NextTurn(m, id, b, Hear(r));
    assert RequestOk(m, id, a, b, r);
    forall q | q in n.requests ensures RequestOk(m, id, a, n, q) {
      assert RequestOk(m, id, a, b, q);
    }
    SameTokens(b, n, b.writers, a);
  }

  lemma TurnKeepsInv(m: Scheme, id: nat, a: nat, b: Browser, turn: Turn)
    requires m.Sound() && BrowserInv(m, id, a, b)
    ensures BrowserInv(m, id, a, NextTurn(m, id, b, turn))
  {
    var r := turn.r;
    if r in b.requests {
      assert RequestOk(m, id, a, b, r);
    }
    hide BrowserInv;
    match turn
    case Send(r) => if r !in b.requests { SendKeepsInv(m, id, a, b, r); }
    case Look(r) => if r in b.requests && r !in b.column.copies { LookKeepsInv(m, id, a, b, r); }
    case Rotation(r, o) =>
      if r in b.requests && r in b.column.copies && b.requests[r].token.Some? && !b.requests[r].rotated {
        RotationKeepsInv(m, id, a, b, r, o);
      }
    case HandlerSave(r, o) =>
      if r in b.requests && r in b.column.copies && b.requests[r].rotated { SavingKeepsInv(m, id, a, b, r, o); }
    case Hear(r) => if r in b.requests && b.requests[r].reply.Some? { HearKeepsInv(m, id, a, b, r); }
  }

  lemma {:induction false} TurnsKeepInv(m: Scheme, id: nat, a: nat, minted: nat, turns: seq<Turn>)
    requires m.Sound() && a < minted
    ensures BrowserInv(m, id, a, Turns(m, id, InStep(m, id, a, minted), turns))
  {
    if turns != [] {
      TurnsKeepInv(m, id, a, minted, turns[..|turns| - 1]);
      TurnKeepsInv(m, id, a, Turns(m, id, InStep(m, id, a, minted), turns[..|turns| - 1]), turns[|turns| - 1]);
    }
  }

  /**
   However the requests of one browser overlap, and whatever becomes of their saves and responses: at any moment its
   cookie is let in exactly when nothing was written, or the request that wrote last is the one it heard from last.
   */
  lemma OverlappingInStepIff(m: Scheme, id: nat, a: nat, minted: nat, turns: seq<Turn>)
    requires m.Sound() && a < minted
    ensures var b := Turns(m, id, InStep(m, id, a, minted), turns);
            Admits(m, id, b.column.stored, b.cookie) <==>
            b.writers == [] || (b.heard != [] && b.heard[|b.heard| - 1] == b.writers[|b.writers| - 1])
  {
    hide *;
    TurnsKeepInv(m, id, a, minted, turns);
    var b := Turns(m, id, InStep(m, id, a, minted), turns);
    HoldsTokens(m, id, a, b);
    AdmitsIff(m, id, LastToken(b, b.heard, a), LastToken(b, b.writers, a));
    SameTokenIff(m, id, a, b);
  }

  lemma HoldsTokens(m: Scheme, id: nat, a: nat, b: Browser)
    requires BrowserInv(m, id, a, b)
    ensures b.column.stored == m.Stored(LastToken(b, b.writers, a))
    ensures b.cookie == Some(CookieOf(m, id, LastToken(b, b.heard, a)))
  {
  }

  /** Requests have tokens of their own, so the tokens tell who wrote and who was heard. */
  lemma SameTokenIff(m: Scheme, id: nat, a: nat, b: Browser)
    requires BrowserInv(m, id, a, b)
    ensures LastToken(b, b.heard, a) == LastToken(b, b.writers, a) <==>
            b.writers == [] || (b.heard != [] && b.heard[|b.heard| - 1] == b.writers[|b.writers| - 1])
  {
    hide CookieOf;
    assert b.heard == [] || b.heard[|b.heard| - 1] in b.heard;
    assert b.writers == [] || b.writers[|b.writers| - 1] in b.writers;
    if b.writers != [] {
      assert RequestOk(m, id, a, b, b.writers[|b.writers| - 1]);
    }
  }

  // ---------------------------------------------------------------- a visit as a run of the browser

  function SaveTurns(r: nat, saves: seq<SaveOutcome>): seq<Turn> {
    seq(|saves|, i requires 0 <= i < |saves| => HandlerSave(r, saves[i]))
  }

  /** The visit `v` as request `r`; a session that restores the user leaves the token alone. */
  function VisitTurns(r: nat, v: Visit): seq<Turn> {
    if !v.expired || !v.loads then []
    else [Send(r), Look(r), Rotation(r, v.rotation)] + SaveTurns(r, v.saves) + if v.returns_ && v.arrives then [Hear(r)] else []
  }

  lemma {:induction false} TurnsAppend(m: Scheme, id: nat, b: Browser, s: seq<Turn>, t: seq<Turn>)
    ensures Turns(m, id, b, s + t) == Turns(m, id, Turns(m, id, b, s), t)
  {
    if t == [] {
      assert s + t == s;
    } else {
      TurnsAppend(m, id, b, s, t[..|t| - 1]);
      assert (s + t)[..|s + t| - 1] == s + t[..|t| - 1];
    }
  }

  lemma {:induction false} SavesRun(m: Scheme, id: nat, b: Browser, r: nat, saves: seq<SaveOutcome>)
    requires r in b.requests && r in b.column.copies && b.requests[r].rotated
    ensures var e, u := Turns(m, id, b, SaveTurns(r, saves)), b.column.copies[r];
            && e.cookie == b.cookie && e.requests == b.requests && e.column.minted == b.column.minted
            && r in e.column.copies && e.column.copies[r].token == u.token
            && (e.column.copies[r].loaded == u.loaded || (AnyLands(saves) && e.column.copies[r].loaded == u.token))
            && e.column.stored == if u.Dirty() && AnyLands(saves) then u.token else b.column.stored
  {
    if saves != [] {
      var init, last := saves[..|saves| - 1], saves[|saves| - 1];
      SavesRun(m, id, b, r, init);
      assert SaveTurns(r, saves)[..|saves| - 1] == SaveTurns(r, init);
    } else {
      assert SaveTurns(r, saves) == [];
    }
  }

  /** A request that was not let in changes nothing that matters. */
  lemma {:induction false} NotLetIn(m: Scheme, id: nat, b: Browser, r: nat, saves: seq<SaveOutcome>)
    requires r in b.requests && !b.requests[r].rotated
    ensures Turns(m, id, b, SaveTurns(r, saves)) == b
  {
    if saves != [] {
      NotLetIn(m, id, b, r, saves[..|saves| - 1]);
      assert SaveTurns(r, saves)[..|saves| - 1] == SaveTurns(r, saves[..|saves| - 1]);
    } else {
      assert SaveTurns(r, saves) == [];
    }
  }

  lemma FirstTurns(m: Scheme, id: nat, b: Browser, r: nat, o: SaveOutcome)
    ensures Turns(m, id, b, [Send(r), Look(r), Rotation(r, o)])
            == NextTurn(m, id, NextTurn(m, id, NextTurn(m, id, b, Send(r)), Look(r)), Rotation(r, o))
  {
    hide NextTurn;
    var t := [Send(r), Look(r), Rotation(r, o)];
    assert t[..2] == [Send(r), Look(r)] && [Send(r), Look(r)][..1] == [Send(r)] && [Send(r)][..0] == [];
    assert Turns(m, id, b, [Send(r)]) == NextTurn(m, id, b, Send(r));
    assert Turns(m, id, b, [Send(r), Look(r)]) == NextTurn(m, id, Turns(m, id, b, [Send(r)]), Look(r));
  }

  ghost function WorldOf(b: Browser): World {
    World(b.column.stored, b.column.minted, b.cookie)
  }

  /** Send, look and rotate, and what they leave. */
  lemma Rotated(m: Scheme, id: nat, b: Browser, r: nat, o: SaveOutcome)
    requires m.Sound() && r !in b.requests && r !in b.column.copies && b.column.stored != m.Stored(b.column.minted)
    requires Admits(m, id, b.column.stored, b.cookie)
    ensures var e, t := Turns(m, id, b, [Send(r), Look(r), Rotation(r, o)]), b.column.minted;
            && r in e.requests && r in e.column.copies && e.requests[r].rotated
            && e.requests[r].reply == (if o.Saved? then Some(CookieOf(m, id, t)) else None)
            && e.cookie == b.cookie && e.column.minted == t + 1
            && e.column.stored == (if o.Lands() then m.Stored(t) else b.column.stored)
            && e.column.copies[r] == Copy(m.Stored(t), if o.Noted() then m.Stored(t) else b.column.stored)
  {
    FirstTurns(m, id, b, r, o);
    hide Admits, CookieOf, Turns;
    var b1 := NextTurn(m, id, b, Send(r));
    var b2 := NextTurn(m, id, b1, Look(r));
    assert b2.column.copies[r] == Copy(m.Stored(b.column.minted), b.column.stored);
  }

  lemma NotRotated(m: Scheme, id: nat, b: Browser, r: nat, o: SaveOutcome)
    requires r !in b.requests && r !in b.column.copies && !Admits(m, id, b.column.stored, b.cookie)
    ensures var e := Turns(m, id, b, [Send(r), Look(r), Rotation(r, o)]);
            WorldOf(e) == WorldOf(b) && r in e.requests && !e.requests[r].rotated && e.requests[r].reply == None
  {
    FirstTurns(m, id, b, r, o);
    hide Admits, CookieOf, Turns;
  }

  /** What `handle` does in one visit is what the interleaved model does with its turns in a row. */
  lemma VisitIsRun(m: Scheme, id: nat, b: Browser, r: nat, v: Visit)
    requires m.Sound() && r !in b.requests && r !in b.column.copies && b.column.stored != m.Stored(b.column.minted)
    ensures WorldOf(Turns(m, id, b, VisitTurns(r, v))) == AfterVisit(m, id, WorldOf(b), v)
  {
    if v.expired && v.loads {
      var first, saves := [Send(r), Look(r), Rotation(r, v.rotation)], SaveTurns(r, v.saves);
      var hear := if v.returns_ && v.arrives then [Hear(r)] else [];
      TurnsAppend(m, id, b, first + saves, hear);
      TurnsAppend(m, id, b, first, saves);
      var b3 := Turns(m, id, b, first);
      if Admits(m, id, b.column.stored, b.cookie) {
        Rotated(m, id, b, r, v.rotation);
        SavesRun(m, id, b3, r, v.saves);
      } else {
        NotRotated(m, id, b, r, v.rotation);
        NotLetIn(m, id, b3, r, v.saves);
      }
      HeardOrNot(m, id, Turns(m, id, b3, saves), r, v.returns_ && v.arrives);
    }
  }

  lemma HeardOrNot(m: Scheme, id: nat, b: Browser, r: nat, arrives: bool)
    requires r in b.requests
    ensures var e := Turns(m, id, b, if arrives then [Hear(r)] else []);
            e.column == b.column && e.cookie == if arrives && b.requests[r].reply.Some? then b.requests[r].reply else b.cookie
  {
    assert [Hear(r)][..0] == [];
    assert Turns(m, id, b, [Hear(r)]) == NextTurn(m, id, Turns(m, id, b, []), Hear(r));
  }

  lemma TurnsTo(m: Scheme, id: nat, b: Browser, turns: seq<Turn>, k: nat, next: nat)
    requires k < |turns| && next == k + 1
    ensures Turns(m, id, b, turns[..next]) == NextTurn(m, id, Turns(m, id, b, turns[..k]), turns[k])
  {
    assert turns[..next][..k] == turns[..k];
  }

  /** Two requests sent together: both rotate, both are saved and heard, in opposite orders. */
  const CROSSED := [Send(0), Send(1), Look(0), Look(1), Rotation(0, Saved), Rotation(1, Saved), Hear(1), Hear(0)]

  /** With nothing failing, overlapping requests still lock the browser out. */
  lemma CrossedResponsesLockOut(m: Scheme, id: nat, a: nat, minted: nat)
    requires m.Sound() && a < minted
    ensures var b := Turns(m, id, InStep(m, id, a, minted), CROSSED);
            b.writers == [0, 1] && b.heard == [1, 0] && !Admits(m, id, b.column.stored, b.cookie)
  {
    var b := InStep(m, id, a, minted);
    BothLook(m, id, a, minted);
    var b4 := NextTurn(m, id, NextTurn(m, id, NextTurn(m, id, NextTurn(m, id, b, Send(0)), Send(1)), Look(0)), Look(1));
    BothRotate(m, id, b4);
    hide NextTurn, Admits;
    assert CROSSED[..0] == [] && CROSSED[..8] == CROSSED;
    TurnsTo(m, id, b, CROSSED, 0, 1);
    TurnsTo(m, id, b, CROSSED, 1, 2);
    TurnsTo(m, id, b, CROSSED, 2, 3);
    TurnsTo(m, id, b, CROSSED, 3, 4);
    assert b4 == Turns(m, id, b, CROSSED[..4]);
    TurnsTo(m, id, b, CROSSED, 4, 5);
    TurnsTo(m, id, b, CROSSED, 5, 6);
    TurnsTo(m, id, b, CROSSED, 6, 7);
    TurnsTo(m, id, b, CROSSED, 7, 8);
    OverlappingInStepIff(m, id, a, minted, CROSSED);
  }

  /** Two requests with tokens of their own, not yet rotated. */
  ghost predicate BothReady(b: Browser) {
    && Rotator(b, 0) && Rotator(b, 1) && !b.requests[0].rotated && !b.requests[1].rotated
    && 0 in b.column.copies && 1 in b.column.copies && b.column.copies[0].Dirty() && b.column.copies[1].Dirty()
    && b.writers == [] && b.heard == []
  }

  lemma BothLook(m: Scheme, id: nat, a: nat, minted: nat)
    requires m.Sound() && a < minted
    ensures BothReady(NextTurn(m, id, NextTurn(m, id, NextTurn(m, id, NextTurn(m, id, InStep(m, id, a, minted), Send(0)), Send(1)), Look(0)), Look(1)))
  {
    AdmitsIff(m, id, a, a);
    hide Admits, CookieOf;
    var b := InStep(m, id, a, minted);
    var b2 := NextTurn(m, id, NextTurn(m, id, b, Send(0)), Send(1));
    assert b2.requests[0].sent == b.cookie && b2.requests[1].sent == b.cookie && b2.column == b.column;
    var b3 := NextTurn(m, id, b2, Look(0));
    assert b3.column.copies == map[0 := Copy(m.Stored(minted), m.Stored(a))] && b3.column.stored == m.Stored(a);
    var b4 := NextTurn(m, id, b3, Look(1));
    assert b4.column.copies[1] == Copy(m.Stored(minted + 1), m.Stored(a));
  }

  lemma BothRotate(m: Scheme, id: nat, b: Browser)
    requires BothReady(b)
    ensures var e := NextTurn(m, id, NextTurn(m, id, NextTurn(m, id, NextTurn(m, id, b, Rotation(0, Saved)), Rotation(1, Saved)), Hear(1)), Hear(0));
            e.writers == [0, 1] && e.heard == [1, 0]
  {
    hide Admits, CookieOf;
    var b1 := NextTurn(m, id, b, Rotation(0, Saved));
    assert b1.writers == [0] && b1.requests[0].reply.Some? && b1.column.copies[1] == b.column.copies[1];
    var b2 := NextTurn(m, id, b1, Rotation(1, Saved));
    assert b2.writers == [0, 1] && b2.requests[0].reply.Some? && b2.requests[1].reply.Some?;
    var b3 := NextTurn(m, id, b2, Hear(1));
    assert b3.heard == [1] && b3.requests[0].reply.Some?;
  }
}
