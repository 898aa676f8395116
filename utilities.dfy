/** The helpers every command leans on: the age cipher (as an abstract pair of
    functions), the passphrase resolution over keyring and prompt, and the
    line reader with its whitespace trimming. */
module Utilities {
  import opened Errors

  type Bytes = seq<bv8>

  /** The age passphrase cipher, left abstract. `encrypt` is None when the
      encryptor fails to produce output, `decrypt` is None for a wrong
      passphrase, a malformed header or a corrupt body. */
  datatype Cipher = Cipher(
    encrypt: (Bytes, string) -> Option<Bytes>,
    decrypt: (Bytes, string) -> Option<Bytes>)

  /** What the model assumes of age: decrypting with the passphrase a container
      was made with gives back the plaintext, and a container is never empty
      (it always carries the age header). */
  ghost predicate CipherRoundTrips(c: Cipher)
  {
    forall p: Bytes, k: string {:trigger c.encrypt(p, k)} :: c.encrypt(p, k).Some? ==>
      |c.encrypt(p, k).value| > 0 && c.decrypt(c.encrypt(p, k).value, k) == Some(p)
  }

  /** A container made with one passphrase does not open with another. */
  ghost predicate CipherAuthenticates(c: Cipher)
  {
    forall p: Bytes, k: string, k': string {:trigger c.encrypt(p, k), c.decrypt(c.encrypt(p, k).value, k')} ::
      c.encrypt(p, k).Some? && k != k' ==> c.decrypt(c.encrypt(p, k).value, k').None?
  }

  // ---------------------------------------------------------------------
  // Trimming, as `str::trim` does it: White_Space characters are removed
  // from both ends.

  predicate IsWhitespace(c: char)
  {
    || ('\t' <= c <= '\r') || c == ' ' || c == '\U{85}' || c == '\U{A0}' || c == '\U{1680}'
    || ('\U{2000}' <= c <= '\U{200A}') || c == '\U{2028}' || c == '\U{2029}'
    || c == '\U{202F}' || c == '\U{205F}' || c == '\U{3000}'
  }

  predicate AllWhitespace(s: string)
  {
    forall i :: 0 <= i < |s| ==> IsWhitespace(s[i])
  }

  /** The length of the run of whitespace that `s` starts with. */
  function LeadingSpace(s: string): (n: nat)
    ensures n <= |s| && AllWhitespace(s[..n])
    ensures n < |s| ==> !IsWhitespace(s[n])
  {
    if s == [] || !IsWhitespace(s[0]) then 0
    else
      var n := 1 + LeadingSpace(s[1..]);
      assert s[..n] == [s[0]] + s[1..][..n - 1];
      n
  }

  /** The length of the run of whitespace that `s` ends with. */
  function TrailingSpace(s: string): (n: nat)
    ensures n <= |s| && AllWhitespace(s[|s| - n..])
    ensures n < |s| ==> !IsWhitespace(s[|s| - n - 1])
  {
    if s == [] || !IsWhitespace(s[|s| - 1]) then 0
    else
      var front := s[..|s| - 1];
      var n := 1 + TrailingSpace(front);
      assert s[|s| - n..] == front[|front| - (n - 1)..] + [s[|s| - 1]];
      n
  }

  function TrimStart(s: string): string
  {
    s[LeadingSpace(s)..]
  }

  function TrimEnd(s: string): string
  {
    s[..|s| - TrailingSpace(s)]
  }

  /** `str::trim`: the part of `s` between its leading and its trailing
      whitespace, which neither starts nor ends with whitespace. */
  function Trim(s: string): (r: string)
    ensures r == [] || (!IsWhitespace(r[0]) && !IsWhitespace(r[|r| - 1]))
    ensures |r| <= |s|
  {
    TrimEnd(TrimStart(s))
  }

  /** What trimming removes is whitespace on both sides, and what it keeps is a
      contiguous piece of the input. */
  lemma TrimSlice(s: string)
    ensures var i, r := LeadingSpace(s), Trim(s);
      && i + |r| <= |s| && s[i..i + |r|] == r
      && AllWhitespace(s[..i]) && AllWhitespace(s[i + |r|..])
  {
    TrimKeepsMiddle(s);
    TrimDropsTrailing(s);
  }

  lemma TrimKeepsMiddle(s: string)
    ensures var i, r := LeadingSpace(s), Trim(s); i + |r| <= |s| && s[i..i + |r|] == r
  {
    var i := LeadingSpace(s);
    var t := s[i..];
    var k := TrailingSpace(t);
    assert Trim(s) == t[..|t| - k];
    TrimKept(s, i, t, k);
  }

  lemma TrimDropsTrailing(s: string)
    ensures var i, r := LeadingSpace(s), Trim(s); i + |r| <= |s| && AllWhitespace(s[i + |r|..])
  {
    var i := LeadingSpace(s);
    var t := s[i..];
    TrimKept(s, i, t, TrailingSpace(t));
  }

  lemma TrimKept(s: string, i: nat, t: string, k: nat)
    requires i <= |s| && t == s[i..] && k <= |t|
    ensures s[i..i + |t| - k] == t[..|t| - k] && s[i + |t| - k..] == t[|t| - k..]
  {
  }

  /** A string of whitespace only trims to nothing, and only such a string. */
  lemma TrimEmpty(s: string)
    ensures Trim(s) == [] <==> AllWhitespace(s)
  {
    var t := TrimStart(s);
    if Trim(s) == [] {
      assert AllWhitespace(t[0..]);
      assert s == s[..|s| - |t|] + t;
    }
  }

  /** Trimming twice is trimming once. */
  lemma TrimIdempotent(s: string)
    ensures Trim(Trim(s)) == Trim(s)
  {
    var r := Trim(s);
    if r != [] {
      assert TrimStart(r) == r;
      assert TrimEnd(r) == r;
    }
  }

  /** Reading one line from the terminal: the line, with its end of line and
      any surrounding whitespace removed. `line` is what the terminal
      delivered, None when reading failed. The question before it is printed
      by the caller. */
  function ReadStdin(line: Option<string>): (r: Result<string>)
    ensures line.None? <==> r == Err(PromptFailed)
    ensures line.Some? ==> r == Ok(Trim(line.value))
  {
    match line
    case None => Err(PromptFailed)
    case Some(l) => Ok(Trim(l))
  }

  // ---------------------------------------------------------------------
  // The overwrite confirmation: the trimmed answer, upper-cased, must be "Y".

  /** Upper-casing of one character. Only the ASCII letters are mapped here;
      no other character upper-cases to the letter 'Y', so the confirmation
      below does not depend on the rest of the Unicode mapping. */
  function UpperChar(c: char): char
  {
    if 'a' <= c <= 'z' then (c as int - 'a' as int + 'A' as int) as char else c
  }

  function ToUpper(s: string): (r: string)
    ensures |r| == |s|
  {
    seq(|s|, i requires 0 <= i < |s| => UpperChar(s[i]))
  }

  predicate Accepts(answer: string)
  {
    ToUpper(answer) == "Y"
  }

  /** The answers that confirm an overwrite are exactly "y" and "Y". */
  lemma AcceptsExactly(answer: string)
    ensures Accepts(answer) <==> answer == "y" || answer == "Y"
  {
    if answer == "y" || answer == "Y" {
      assert ToUpper(answer)[0] == 'Y';
      assert ToUpper(answer) == "Y";
    }
    if Accepts(answer) {
      assert |answer| == 1;
      assert ToUpper(answer)[0] == UpperChar(answer[0]) == 'Y';
      assert answer == [answer[0]];
    }
  }

  /** A confirmation line "y" typed with its newline and stray blanks is an
      acceptance. */
  lemma PaddedYesAccepts()
    ensures ReadStdin(Some(" y \n")) == Ok("y") && Accepts("y")
  {
    assert " y \n"[1..] == "y \n";
    assert LeadingSpace("y \n") == 0;
    assert LeadingSpace(" y \n") == 1;
    assert TrimStart(" y \n") == "y \n";
    assert "y \n"[..2] == "y " && "y "[..1] == "y";
    assert TrailingSpace("y") == 0;
    assert TrailingSpace("y ") == 1;
    assert TrailingSpace("y \n") == 2;
    assert Trim(" y \n") == "y \n"[..1] == "y";
    assert ToUpper("y")[0] == 'Y';
    assert ToUpper("y") == "Y";
  }

  /** An empty line is a refusal. */
  lemma EmptyLineRefuses()
    ensures ReadStdin(Some("\n")) == Ok("") && !Accepts("")
  {
    assert "\n"[1..] == [];
    assert LeadingSpace("\n") == 1;
    assert TrimStart("\n") == [];
    assert Trim("\n") == [];
    assert |ToUpper("")| == 0;
  }

  // ---------------------------------------------------------------------
  // Passphrase resolution.

  /** The keyring entry of the application for the current OS user.
      `stored` is what reading it returns (None for a miss and for every other
      read failure alike); `writable` says whether storing into it succeeds. */
  datatype Keyring = Keyring(stored: Option<string>, writable: bool)

  /** The external interactions of one resolution, in order. */
  datatype Access = KeyringRead | SecretPrompt(msg: string) | KeyringWrite(secret: string)

  datatype Resolution = Resolution(passphrase: Result<string>, keyring: Keyring, accesses: seq<Access>)

  const PassphrasePrompt: string := "Enter passphrase: "

  /** The passphrase from the keyring, or else from a prompt whose answer is
      then stored in the keyring. `answer` is what the hidden prompt returns. */
  function GetPassphraseKeyring(prompt: string, keyring: Keyring, answer: Option<string>): (r: Resolution)
    ensures keyring.stored.Some? ==> r == Resolution(Ok(keyring.stored.value), keyring, [KeyringRead])
    ensures r.passphrase.Ok? ==> r.keyring.stored == Some(r.passphrase.value)
    ensures r.passphrase == Err(KeyringStoreFailed) <==> keyring.stored.None? && answer.Some? && !keyring.writable
    ensures r.keyring != keyring ==> keyring.stored.None? && answer.Some? && keyring.writable
    ensures keyring.stored.None? ==>
      r.passphrase == (if answer.None? then Err(PromptFailed) else if keyring.writable then Ok(answer.value) else Err(KeyringStoreFailed))
    ensures keyring.stored.None? && answer.Some? && keyring.writable ==> r.keyring.stored == answer
  {
    match keyring.stored
    case Some(pw) => Resolution(Ok(pw), keyring, [KeyringRead])
    case None =>
      match answer
      case None => Resolution(Err(PromptFailed), keyring, [KeyringRead, SecretPrompt(prompt)])
      case Some(p) =>
        var accesses := [KeyringRead, SecretPrompt(prompt), KeyringWrite(p)];
        if keyring.writable then Resolution(Ok(p), keyring.(stored := Some(p)), accesses)
        else Resolution(Err(KeyringStoreFailed), keyring, accesses)
  }

  function GetPassphrase(noKeyring: bool, keyring: Keyring, answer: Option<string>): (r: Resolution)
    ensures noKeyring ==> r.keyring == keyring && r.accesses == [SecretPrompt(PassphrasePrompt)]
    ensures noKeyring ==> r.passphrase == (if answer.Some? then Ok(answer.value) else Err(PromptFailed))
    ensures !noKeyring ==> r == GetPassphraseKeyring(PassphrasePrompt, keyring, answer)
  {
    if noKeyring then
      match answer
      case Some(p) => Resolution(Ok(p), keyring, [SecretPrompt(PassphrasePrompt)])
      case None => Resolution(Err(PromptFailed), keyring, [SecretPrompt(PassphrasePrompt)])
    else GetPassphraseKeyring(PassphrasePrompt, keyring, answer)
  }

  /** The precedence of the sources: the keyring is consulted only when it is
      enabled, and then first; the user is prompted exactly when the keyring is
      off or gave nothing; a prompted value goes into the keyring only when it
      is enabled; and no value other than the stored or the typed one is ever
      returned. */
  lemma {:induction false} PassphrasePrecedence(noKeyring: bool, keyring: Keyring, answer: Option<string>)
    ensures var r := GetPassphrase(noKeyring, keyring, answer);
      && (KeyringRead in r.accesses <==> !noKeyring)
      && (!noKeyring ==> r.accesses[0] == KeyringRead)
      && (SecretPrompt(PassphrasePrompt) in r.accesses <==> noKeyring || keyring.stored.None?)
      && (forall s :: KeyringWrite(s) in r.accesses ==> !noKeyring && keyring.stored.None? && answer == Some(s))
      && (r.passphrase.Ok? ==> r.passphrase.value == (if !noKeyring && keyring.stored.Some? then keyring.stored.value else answer.value))
      && (r.passphrase.Ok? && !noKeyring ==> r.keyring.stored == Some(r.passphrase.value))
      && (r.passphrase.Ok? <==> (!noKeyring && keyring.stored.Some?) || (answer.Some? && (noKeyring || keyring.writable)))
  {
    var r := GetPassphrase(noKeyring, keyring, answer);
    if noKeyring {
      assert r.accesses == [SecretPrompt(PassphrasePrompt)];
    } else if keyring.stored.None? && answer.Some? {
      assert r.accesses == [KeyringRead, SecretPrompt(PassphrasePrompt), KeyringWrite(answer.value)];
    }
  }
}
