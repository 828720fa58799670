/** The admin login page: the hidden key sequence that unlocks super-admin
    registration, and the form check run before login or registration. */
module AdminLogin {
  import opened Text

  /** The keys that, typed in a row, unlock super-admin mode. */
  const SecretCode: seq<string> := ["s", "u", "p", "e", "r", "a", "d", "m", "i", "n"]

  /** `secretCode.join('')`, as `SecretCodeText` proves. */
  const CodeText := "superadmin"

  const UnlockedMessage := "Super Admin registration unlocked! You can now add a new admin."

  /** `keys.join('')`. */
  function Join(keys: seq<string>): (r: string)
    ensures keys == [] ==> r == []
  {
    if keys == [] then [] else Join(keys[..|keys| - 1]) + keys[|keys| - 1]
  }

  /** `keys.slice(-10)`. */
  function LastTen(keys: seq<string>): (r: seq<string>)
    ensures |r| == if |keys| < 10 then |keys| else 10
    ensures r == keys[|keys| - |r|..]
  {
    if |keys| <= 10 then keys else keys[|keys| - 10..]
  }

  /** Keeping only the last ten keys before appending one loses nothing the
      next `slice(-10)` would see, so a detector may store the window alone. */
  lemma LastTenSnoc(keys: seq<string>, key: string)
    ensures LastTen(LastTen(keys) + [key]) == LastTen(keys + [key])
    ensures SpellsCode(LastTen(keys) + [key]) <==> SpellsCode(keys + [key])
  {
  }

  /** The detector's state: the keys typed since the last reset, and whether
      super-admin mode is on. */
  datatype KeyState = KeyState(keySequence: seq<string>, superAdminMode: bool)

  /** The last ten keys of `keys` spell the secret code. */
  predicate SpellsCode(keys: seq<string>)
  {
    Join(LastTen(keys)) == CodeText
  }

  /** One key-down event. In super-admin mode keys are ignored; otherwise the
      lowercased key is appended, and the sequence is cleared when it unlocks
      the mode or grows past 15 keys. */
  function KeyDown(s: KeyState, key: string): KeyState
  {
    if s.superAdminMode then s
    else
      var newSequence := s.keySequence + [Lower(key)];
      var unlocked := SpellsCode(newSequence);
      KeyState(if unlocked || |newSequence| > 15 then [] else newSequence, unlocked)
  }

  /** Events fed to a handler `step` in order. */
  function Replay(step: (KeyState, string) -> KeyState, s: KeyState, keys: seq<string>): KeyState
    decreases |keys|
  {
    if keys == [] then s else Replay(step, step(s, keys[0]), keys[1..])
  }

  /** Key-down events in order. */
  function Run(s: KeyState, keys: seq<string>): KeyState
  {
    Replay(KeyDown, s, keys)
  }

  /** The lowercased keys. */
  function LowerAll(keys: seq<string>): (r: seq<string>)
    ensures |r| == |keys|
  {
    if keys == [] then [] else [Lower(keys[0])] + LowerAll(keys[1..])
  }

  /** The handler ignores keys in super-admin mode. */
  ghost predicate IgnoresKeysInMode(step: (KeyState, string) -> KeyState)
  {
    forall t: KeyState, key: string :: t.superAdminMode ==> step(t, key) == t
  }

  /** Below 15 keys, the handler either turns the mode on or appends the
      lowercased key. */
  ghost predicate CollectsKeys(step: (KeyState, string) -> KeyState)
  {
    forall t: KeyState, key: string :: !t.superAdminMode && |t.keySequence| < 15 ==>
      step(t, key).superAdminMode || step(t, key) == KeyState(t.keySequence + [Lower(key)], false)
  }

  /** Below 15 keys, the handler appends the lowercased key whenever the
      result does not pass the `spells` test. */
  ghost predicate AppendsUnlessSpelled(step: (KeyState, string) -> KeyState, spells: seq<string> -> bool)
  {
    forall t: KeyState, key: string :: !t.superAdminMode && |t.keySequence| < 15 && !spells(t.keySequence + [Lower(key)]) ==>
      step(t, key) == KeyState(t.keySequence + [Lower(key)], false)
  }

  /** Outside the mode, a key that makes the last ten keys the code's keys
      turns the mode on. */
  ghost predicate UnlocksOnCode(step: (KeyState, string) -> KeyState, code: seq<string>)
  {
    forall t: KeyState, key: string :: !t.superAdminMode && LastTen(t.keySequence + [Lower(key)]) == code ==>
      step(t, key).superAdminMode
  }

  /** A sixteenth key that does not pass the `spells` test clears the
      sequence and leaves the mode off. */
  ghost predicate ClearsPastFifteen(step: (KeyState, string) -> KeyState, spells: seq<string> -> bool)
  {
    forall t: KeyState, key: string :: !t.superAdminMode && |t.keySequence| == 15 && !spells(t.keySequence + [Lower(key)]) ==>
      step(t, key) == KeyState([], false)
  }

  /** Keys are recorded lowercased and only outside super-admin mode; the
      mode comes on exactly when the last ten keys spell the code, and
      unlocking clears the sequence; the stored sequence never exceeds 15
      keys. */
  lemma KeyDownSpec(s: KeyState, key: string)
    requires |s.keySequence| <= 15
    ensures var t := KeyDown(s, key);
      && |t.keySequence| <= 15
      && (s.superAdminMode ==> t == s)
      && (!s.superAdminMode ==>
            (t.superAdminMode <==> SpellsCode(s.keySequence + [Lower(key)])) &&
            (t.superAdminMode ==> t.keySequence == []) &&
            (t.keySequence == [] || t.keySequence == s.keySequence + [Lower(key)]) &&
            (|s.keySequence| < 15 && !t.superAdminMode ==> t.keySequence == s.keySequence + [Lower(key)]))
  {
  }

  /** The key-down handler has both step properties. */
  lemma KeyDownSteps()
    ensures IgnoresKeysInMode(KeyDown) && CollectsKeys(KeyDown) && AppendsUnlessSpelled(KeyDown, SpellsCode)
    ensures ClearsPastFifteen(KeyDown, SpellsCode)
  {
  }

  lemma KeyDownUnlocksOnCode()
    ensures UnlocksOnCode(KeyDown, SecretCode)
  {
    SecretCodeText();
  }

  lemma {:induction false} ReplaySplit(step: (KeyState, string) -> KeyState, s: KeyState, a: seq<string>, b: seq<string>)
    ensures Replay(step, s, a + b) == Replay(step, Replay(step, s, a), b)
    decreases |a|
  {
    if a == [] {
      assert a + b == b;
    } else {
      assert (a + b)[0] == a[0] && (a + b)[1..] == a[1..] + b;
      ReplaySplit(step, step(s, a[0]), a[1..], b);
    }
  }

  lemma {:induction false} ReplayStaysInMode(step: (KeyState, string) -> KeyState, s: KeyState, keys: seq<string>)
    requires IgnoresKeysInMode(step) && s.superAdminMode
    ensures Replay(step, s, keys) == s
    decreases |keys|
  {
    if keys != [] {
      ReplayStaysInMode(step, step(s, keys[0]), keys[1..]);
    }
  }

  lemma {:induction false} ReplayCollects(step: (KeyState, string) -> KeyState, s: KeyState, keys: seq<string>)
    requires IgnoresKeysInMode(step) && CollectsKeys(step)
    requires !s.superAdminMode && |s.keySequence| + |keys| <= 15
    ensures Replay(step, s, keys).superAdminMode || Replay(step, s, keys) == KeyState(s.keySequence + LowerAll(keys), false)
    decreases |keys|
  {
    if keys != [] {
      var t := step(s, keys[0]);
      assert Replay(step, s, keys) == Replay(step, t, keys[1..]);
      if t.superAdminMode {
        ReplayStaysInMode(step, t, keys[1..]);
      } else {
        assert t == KeyState(s.keySequence + [Lower(keys[0])], false);
        ReplayCollects(step, t, keys[1..]);
        assert LowerAll(keys) == [Lower(keys[0])] + LowerAll(keys[1..]);
        assert s.keySequence + [Lower(keys[0])] + LowerAll(keys[1..]) == s.keySequence + LowerAll(keys);
      }
    }
  }

  /** Typing the first key and then k more is typing the first k + 1. */
  lemma PrefixAfterHead(typed: seq<string>, keys: seq<string>, k: nat)
    requires 1 <= k < |keys|
    ensures (typed + [Lower(keys[0])]) + LowerAll(keys[1..][..k]) == typed + LowerAll(keys[..k + 1])
  {
    var p := keys[..k + 1];
    assert p[0] == keys[0] && p[1..] == keys[1..][..k];
  }

  lemma {:induction false} ReplayCollectsQuietly(step: (KeyState, string) -> KeyState, spells: seq<string> -> bool, s: KeyState, keys: seq<string>)
    requires AppendsUnlessSpelled(step, spells)
    requires !s.superAdminMode && |s.keySequence| + |keys| <= 15
    requires forall k :: 1 <= k <= |keys| ==> !spells(s.keySequence + LowerAll(keys[..k]))
    ensures Replay(step, s, keys) == KeyState(s.keySequence + LowerAll(keys), false)
    decreases |keys|
  {
    if keys != [] {
      var head := [Lower(keys[0])];
      assert keys[..1][0] == keys[0] && keys[..1][1..] == [];
      assert LowerAll(keys[..1]) == head;
      var t := step(s, keys[0]);
      assert t == KeyState(s.keySequence + head, false);
      forall k | 1 <= k <= |keys| - 1
        ensures !spells(t.keySequence + LowerAll(keys[1..][..k]))
      {
        PrefixAfterHead(s.keySequence, keys, k);
      }
      ReplayCollectsQuietly(step, spells, t, keys[1..]);
    }
  }

  /** Once on, super-admin mode survives any further keys. */
  lemma ModeStaysOn(s: KeyState, keys: seq<string>)
    requires s.superAdminMode
    ensures Run(s, keys) == s
  {
    KeyDownSteps();
    ReplayStaysInMode(KeyDown, s, keys);
  }

  /** While the sequence stays within 15 keys, it just collects the
      lowercased keys, unless the mode has come on; if no prefix of the keys
      spells the code, the mode stays off. */
  lemma RunCollects(s: KeyState, keys: seq<string>)
    requires !s.superAdminMode && |s.keySequence| + |keys| <= 15
    ensures Run(s, keys).superAdminMode || Run(s, keys) == KeyState(s.keySequence + LowerAll(keys), false)
    ensures (forall k :: 1 <= k <= |keys| ==> !SpellsCode(s.keySequence + LowerAll(keys[..k]))) ==>
              Run(s, keys) == KeyState(s.keySequence + LowerAll(keys), false)
  {
    KeyDownSteps();
    ReplayCollects(KeyDown, s, keys);
    if forall k :: 1 <= k <= |keys| ==> !SpellsCode(s.keySequence + LowerAll(keys[..k])) {
      ReplayCollectsQuietly(KeyDown, SpellsCode, s, keys);
    }
  }

  lemma {:induction false} LowerAllAppend(a: seq<string>, b: seq<string>)
    ensures LowerAll(a + b) == LowerAll(a) + LowerAll(b)
    decreases |a|
  {
    if a == [] {
      assert a + b == b;
    } else {
      assert (a + b)[0] == a[0] && (a + b)[1..] == a[1..] + b;
      LowerAllAppend(a[1..], b);
    }
  }

  lemma {:induction false} LowerAllAt(keys: seq<string>, i: nat)
    requires i < |keys|
    ensures LowerAll(keys)[i] == Lower(keys[i])
    decreases i
  {
    if i > 0 {
      LowerAllAt(keys[1..], i - 1);
    }
  }

  /** Keys that lowercase to themselves are left as they are. */
  lemma {:induction false} LowerAllFixed(keys: seq<string>)
    requires forall i :: 0 <= i < |keys| ==> Lower(keys[i]) == keys[i]
    ensures LowerAll(keys) == keys
    decreases |keys|
  {
    if keys != [] {
      LowerAllFixed(keys[1..]);
    }
  }

  /** The code is made of single lowercase letters. */
  lemma CodeKeysLowercase()
    ensures forall i :: 0 <= i < |SecretCode| ==> |SecretCode[i]| == 1 && IsLower(SecretCode[i][0])
  {
  }

  /** The code's keys are already lowercase. */
  lemma LowerAllCode()
    ensures LowerAll(SecretCode) == SecretCode
  {
    CodeKeysLowercase();
    forall i | 0 <= i < |SecretCode|
      ensures Lower(SecretCode[i]) == SecretCode[i]
    {
      var k := SecretCode[i];
      assert Lower(k)[0] == k[0];
    }
    LowerAllFixed(SecretCode);
  }

  /** Joining one-character keys lays their characters side by side. */
  lemma {:induction false} JoinSingles(keys: seq<string>)
    requires forall i :: 0 <= i < |keys| ==> |keys[i]| == 1
    ensures |Join(keys)| == |keys|
    ensures forall i :: 0 <= i < |keys| ==> Join(keys)[i] == keys[i][0]
    decreases |keys|
  {
    if keys != [] {
      JoinSingles(keys[..|keys| - 1]);
    }
  }

  /** The code joins to "superadmin". */
  lemma SecretCodeText()
    ensures Join(SecretCode) == CodeText
  {
    JoinSingles(SecretCode);
  }

  /** For one-character keys, spelling the code means the last ten keys are
      the code's keys. */
  lemma SpellsCodeSingles(keys: seq<string>)
    requires forall i :: 0 <= i < |keys| ==> |keys[i]| == 1
    ensures SpellsCode(keys) <==> |keys| >= 10 && keys[|keys| - 10..] == SecretCode
  {
    var last := LastTen(keys);
    JoinSingles(last);
    SecretCodeText();
    JoinSingles(SecretCode);
    if SpellsCode(keys) {
      assert |last| == 10;
      forall i | 0 <= i < 10
        ensures last[i] == SecretCode[i]
      {
        assert Join(last)[i] == Join(SecretCode)[i];
        assert last[i] == [last[i][0]];
      }
    }
  }

  lemma {:induction false} ReplayOne(step: (KeyState, string) -> KeyState, t: KeyState, keys: seq<string>)
    requires |keys| == 1
    ensures Replay(step, t, keys) == step(t, keys[0])
  {
    assert keys[1..] == [];
  }

  lemma {:induction false} ReplayTypingCode(step: (KeyState, string) -> KeyState, code: seq<string>, s: KeyState, typed: seq<string>)
    requires IgnoresKeysInMode(step) && CollectsKeys(step) && UnlocksOnCode(step, code)
    requires |s.keySequence| <= 6
    requires |typed| == 10 && LowerAll(typed) == code
    ensures Replay(step, s, typed).superAdminMode
  {
    if s.superAdminMode {
      ReplayStaysInMode(step, s, typed);
    } else {
      ReplaySplit(step, s, typed[..9], typed[9..]);
      assert typed[..9] + typed[9..] == typed;
      var t := Replay(step, s, typed[..9]);
      ReplayOne(step, t, typed[9..]);
      ReplayCollects(step, s, typed[..9]);
      if t.superAdminMode {
        ReplayStaysInMode(step, t, typed[9..]);
      } else {
        LastKeyCompletesCode(s.keySequence, typed, code);
      }
    }
  }

  /** The nine keys collected after a short prefix and then the tenth key
      leave exactly the code in the last ten places. */
  lemma LastKeyCompletesCode(prefix: seq<string>, typed: seq<string>, code: seq<string>)
    requires |typed| == 10 && LowerAll(typed) == code
    ensures LastTen(prefix + LowerAll(typed[..9]) + [Lower(typed[9])]) == code
  {
    LowerAllAppend(typed[..9], typed[9..]);
    assert typed[..9] + typed[9..] == typed;
    assert LowerAll(typed[9..]) == [Lower(typed[9])];
    assert prefix + LowerAll(typed[..9]) + [Lower(typed[9])] == prefix + code;
  }

  /** Typing the code after at most six other keys unlocks super-admin mode,
      whatever the case of the keys typed. */
  lemma TypingCodeUnlocks(s: KeyState, code: seq<string>)
    requires |s.keySequence| <= 6
    requires |code| == 10 && LowerAll(code) == SecretCode
    ensures Run(s, code).superAdminMode
  {
    KeyDownSteps();
    KeyDownUnlocksOnCode();
    ReplayTypingCode(KeyDown, SecretCode, s, code);
  }

  /** A stray key ten from the end rules the code out. */
  lemma StrayKeyBlocksCode(typed: seq<string>)
    requires forall i :: 0 <= i < |typed| ==> |typed[i]| == 1
    requires |typed| < 10 || typed[|typed| - 10] != "s"
    ensures !SpellsCode(typed)
  {
    SpellsCodeSingles(typed);
  }

  lemma {:induction false} LowerAllPrefix(a: seq<string>, k: nat)
    requires k <= |a|
    ensures LowerAll(a[..k]) == LowerAll(a)[..k]
  {
    LowerAllAppend(a[..k], a[k..]);
    assert a[..k] + a[k..] == a;
  }

  lemma {:induction false} ReplayLateCode(step: (KeyState, string) -> KeyState, spells: seq<string> -> bool, xs: seq<string>, code: seq<string>)
    requires AppendsUnlessSpelled(step, spells) && ClearsPastFifteen(step, spells)
    requires |xs| == 7 && |code| == 10
    requires forall k :: 1 <= k <= 9 ==> !spells(xs + LowerAll(code[..k]))
    requires !spells([Lower(code[9])])
    ensures !Replay(step, KeyState(xs, false), code).superAdminMode
  {
    var s := KeyState(xs, false);
    var first := code[..8];
    ReplaySplit(step, s, first, code[8..]);
    assert first + code[8..] == code;
    forall k | 1 <= k <= 8
      ensures !spells(xs + LowerAll(first[..k]))
    {
      assert first[..k] == code[..k];
    }
    ReplayCollectsQuietly(step, spells, s, first);
    var t := Replay(step, s, first);
    LowerAllAppend(first, [code[8]]);
    assert first + [code[8]] == code[..9];
    assert LowerAll([code[8]]) == [Lower(code[8])];
    assert t == KeyState(xs + LowerAll(first), false);
    assert t.keySequence + [Lower(code[8])] == xs + LowerAll(code[..9]);
    assert !spells(t.keySequence + [Lower(code[8])]);
    var u := step(t, code[8]);
    assert u == KeyState([], false);
    assert code[8..][0] == code[8] && code[8..][1..] == [code[9]];
    assert Replay(step, t, code[8..]) == Replay(step, u, [code[9]]);
    ReplayOne(step, u, [code[9]]);
    assert u.keySequence + [Lower(code[9])] == [Lower(code[9])];
    assert step(u, code[9]) == KeyState([Lower(code[9])], false);
  }

  /** No prefix of a one-character code that does not start with "x",
      typed after seven "x" keys, spells the code. */
  lemma LateCodePrefixes(xs: seq<string>, code: seq<string>)
    requires |xs| == 7 && forall i :: 0 <= i < 7 ==> xs[i] == "x"
    requires |code| == 10 && LowerAll(code) == code && code[0] == "s"
    requires forall i :: 0 <= i < 10 ==> |code[i]| == 1
    ensures forall k :: 1 <= k <= 9 ==> !SpellsCode(xs + LowerAll(code[..k]))
    ensures !SpellsCode([Lower(code[9])])
  {
    assert "x" != "s" by { assert "x"[0] != "s"[0]; }
    forall k | 1 <= k <= 9
      ensures !SpellsCode(xs + LowerAll(code[..k]))
    {
      LowerAllPrefix(code, k);
      var typed := xs + code[..k];
      assert |typed| >= 10 ==> typed[|typed| - 10] == xs[k - 3];
      StrayKeyBlocksCode(typed);
    }
    StrayKeyBlocksCode([Lower(code[9])]);
  }

  /** Seven other keys before the code use up the 15-key window: the
      sequence is cleared one key before the code is complete, and the mode
      stays off. */
  lemma LateCodeIsLost(xs: seq<string>)
    requires |xs| == 7 && forall i :: 0 <= i < 7 ==> xs[i] == "x"
    ensures !Run(KeyState(xs, false), SecretCode).superAdminMode
  {
    KeyDownSteps();
    LowerAllCode();
    CodeKeysLowercase();
    LateCodePrefixes(xs, SecretCode);
    ReplayLateCode(KeyDown, SpellsCode, xs, SecretCode);
  }

  /** The page's key-detector state. */
  class KeyDetector {
    var keySequence: seq<string>
    var superAdminMode: bool
    var success: string

    predicate Valid()
      reads this
    {
      |keySequence| <= 15
    }

    constructor ()
      ensures Valid() && keySequence == [] && !superAdminMode && success == []
    {
      keySequence := [];
      superAdminMode := false;
      success := [];
    }

    /** The key-down handler. */
    method HandleKeyDown(key: string)
      requires Valid()
      modifies this
      ensures Valid()
      ensures KeyState(keySequence, superAdminMode) == KeyDown(old(KeyState(keySequence, superAdminMode)), key)
      ensures success == if superAdminMode && !old(superAdminMode) then UnlockedMessage else old(success)
    {
      if !superAdminMode {
        var newSequence := keySequence + [Lower(key)];
        keySequence := newSequence;
        var lastTenKeys := LastTen(newSequence);
        SecretCodeText();
        if Join(lastTenKeys) == Join(SecretCode) {
          superAdminMode := true;
          success := UnlockedMessage;
          keySequence := [];
        }
        if |newSequence| > 15 {
          keySequence := [];
        }
      }
    }
  }

  /** The form fields. */
  datatype Credentials = Credentials(
    firstName: string, lastName: string, username: string,
    email: string, password: string, confirmPassword: string)

  /** The first rule the form breaks, or `None` when it may be sent. */
  function ValidateForm(c: Credentials, superAdminMode: bool): Option<string>
  {
    if superAdminMode && IsBlank(Js, c.firstName) then Some("First name is required")
    else if superAdminMode && IsBlank(Js, c.lastName) then Some("Last name is required")
    else if superAdminMode && IsBlank(Js, c.username) then Some("Username is required")
    else if superAdminMode && |c.username| < 3 then Some("Username must be at least 3 characters long")
    else if superAdminMode && c.password != c.confirmPassword then Some("Passwords do not match")
    else if superAdminMode && |c.password| < 6 then Some("Password must be at least 6 characters long")
    else if IsBlank(Js, c.email) then Some("Email is required")
    else if IsBlank(Js, c.password) then Some("Password is required")
    else None
  }

  /** What registration demands beyond login. */
  predicate RegistrationOk(c: Credentials)
  {
    && !IsBlank(Js, c.firstName) && !IsBlank(Js, c.lastName) && !IsBlank(Js, c.username)
    && |c.username| >= 3 && c.password == c.confirmPassword && |c.password| >= 6
  }

  /** What login demands. */
  predicate LoginOk(c: Credentials)
  {
    !IsBlank(Js, c.email) && !IsBlank(Js, c.password)
  }

  /** The form passes exactly when the email and password are present and,
      in super-admin mode, the registration rules hold too; login ignores
      the registration fields. */
  lemma ValidateFormIff(c: Credentials, superAdminMode: bool)
    ensures ValidateForm(c, superAdminMode).None? <==> LoginOk(c) && (superAdminMode ==> RegistrationOk(c))
    ensures !superAdminMode ==> ValidateForm(c, false) == ValidateForm(c.(firstName := [], lastName := [], username := [], confirmPassword := []), false)
  {
  }

  /** The `trim()` test agrees with blankness. */
  lemma BlankIsEmptyTrim(s: string)
    ensures Trim(Js, s) == [] <==> IsBlank(Js, s)
  {
  }
}
