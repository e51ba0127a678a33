/**
 * PasswordFormWithHash: a form driver whose password question keeps only
 * a hash of the password in its storage. The form browser calls Callback
 * with the string the user typed; HandlePasswordInput answers the
 * browser's three requests: "is there a password" (an empty string),
 * "is this the old password", and "store this new password".
 *
 * The hash is the Hash2 protocol's SHA-512 of the password's UCS-2 bytes,
 * cut to HASHED_PASSWORD_SIZE bytes; the protocol is a parameter. Data.h,
 * which defines HASHED_PASSWORD_SIZE and KEY_PASSWORD, is not part of this
 * model: both are constants of the storage object here.
 */
module PasswordForm {
  import opened Efi
  import opened FormCallback

  const SHA512_DIGEST_SIZE: nat := 64

  /** An EFI_HASH2_OUTPUT holding a SHA-512 digest. */
  type Digest = s: seq<byte> | |s| == SHA512_DIGEST_SIZE witness seq(SHA512_DIGEST_SIZE, _ => 0)

  /** What the Hash2 protocol's Hash answers for a message. */
  datatype HashOutput = HashOutput(status: Status, digest: Digest)

  /** An EFI_STRING as HiiGetString returns it: UCS-2 units, no NUL. */
  type Ucs2Text = s: seq<u16> | 0 !in s

  /** ComputeStringHash: the first `size` bytes of the digest of the
      password's 2 * StrLen bytes, or None when Hash fails (and nothing is
      copied). */
  function StringHash(hash: seq<byte> -> HashOutput, password: Ucs2Text, size: nat): (r: Option<seq<byte>>)
    requires size <= SHA512_DIGEST_SIZE
    ensures r.None? <==> IsError(hash(Ucs2Bytes(password)).status)
    ensures r.Some? ==> |r.value| == size
  {
    var out := hash(Ucs2Bytes(password));
    if IsError(out.status) then None else Some(out.digest[..size])
  }

  /** FormStorage.Password and OldPasswordVerified. */
  datatype Form = Form(password: seq<byte>, verified: bool)

  /** A stored hash of HASHED_PASSWORD_SIZE bytes. */
  predicate Sized(f: Form, size: nat)
  {
    1 <= size <= SHA512_DIGEST_SIZE && |f.password| == size
  }

  /** "A password exists": the first byte of the stored hash is not zero. */
  predicate HasPassword(f: Form)
    requires |f.password| >= 1
  {
    f.password[0] != 0
  }

  /** The status HandlePasswordInput returns and the form it leaves. */
  datatype Answer = Answer(status: Status, form: Form)

  /** The code as written also depends on two values it never sets: the
      Status it tests after storing a first password (line 172 tests a
      Status no call assigned), and the bytes of TempHash when hashing the
      old password fails (nothing is copied into it). */
  datatype Garbage = Garbage(status: Status, tempHash: seq<byte>)

  /** HandlePasswordInput as written. */
  function PasswordInput(f: Form, size: nat, input: Ucs2Text, hash: seq<byte> -> HashOutput, g: Garbage): (r: Answer)
    requires Sized(f, size) && |g.tempHash| == size
    ensures Sized(r.form, size)
    ensures input == [] ==> r.form == f && r.status == (if HasPassword(f) then AlreadyStarted else Success)
    ensures input != [] && !HasPassword(f) ==>
      && r.form.verified == f.verified
      && r.form.password == (match StringHash(hash, input, size) case Some(h) => h case None => f.password)
      && r.status == (if IsError(g.status) then g.status else Success)
    ensures input != [] && HasPassword(f) && !f.verified ==>
      && r.form.password == f.password
      && (r.form.verified <==> (match StringHash(hash, input, size) case Some(h) => h case None => g.tempHash) == f.password)
      && r.status == (if r.form.verified then Success else NotReady)
    ensures input != [] && HasPassword(f) && f.verified ==>
      match StringHash(hash, input, size)
      case Some(h) => r == Answer(Success, Form(h, false))
      case None => r == Answer(hash(Ucs2Bytes(input)).status, f)
  {
    if input == [] then
      if HasPassword(f) then Answer(AlreadyStarted, f) else Answer(Success, f)
    else if !HasPassword(f) then
      var stored := match StringHash(hash, input, size) case Some(h) => h case None => f.password;
      Answer(if IsError(g.status) then g.status else Success, f.(password := stored))
    else if !f.verified then
      var temp := match StringHash(hash, input, size) case Some(h) => h case None => g.tempHash;
      if temp != f.password then Answer(NotReady, f) else Answer(Success, f.(verified := true))
    else
      match StringHash(hash, input, size)
      case None => Answer(hash(Ucs2Bytes(input)).status, f)
      case Some(h) => Answer(Success, Form(h, false))
  }

  /** HandlePasswordInput with the hash status checked each time, as at
      lines 190-193: a failing hash is reported and changes nothing. */
  function PasswordInputIntended(f: Form, size: nat, input: Ucs2Text, hash: seq<byte> -> HashOutput): (r: Answer)
    requires Sized(f, size)
    ensures Sized(r.form, size)
    ensures input != [] && IsError(hash(Ucs2Bytes(input)).status) ==> r == Answer(hash(Ucs2Bytes(input)).status, f)
    ensures !f.verified && r.form.verified ==> StringHash(hash, input, size) == Some(f.password)
  {
    if input == [] then
      if HasPassword(f) then Answer(AlreadyStarted, f) else Answer(Success, f)
    else match StringHash(hash, input, size)
      case None => Answer(hash(Ucs2Bytes(input)).status, f)
      case Some(h) =>
        if !HasPassword(f) then Answer(Success, f.(password := h))
        else if !f.verified then
          if h != f.password then Answer(NotReady, f) else Answer(Success, f.(verified := true))
        else Answer(Success, Form(h, false))
  }

  /** When hashing succeeds and the Status the code never sets happens to
      be EFI_SUCCESS, both versions agree. */
  lemma IntendedAgrees(f: Form, size: nat, input: Ucs2Text, hash: seq<byte> -> HashOutput, g: Garbage)
    requires Sized(f, size) && |g.tempHash| == size
    requires !IsError(hash(Ucs2Bytes(input)).status) && g.status == Success
    ensures PasswordInput(f, size, input, hash, g) == PasswordInputIntended(f, size, input, hash)
  {
  }

  /** As written, a failing hash while checking the old password compares
      whatever TempHash held with the stored hash: when those bytes happen
      to equal it, the old password counts as verified whatever was typed. */
  lemma FailedHashVerifies(f: Form, size: nat, input: Ucs2Text, hash: seq<byte> -> HashOutput)
    requires Sized(f, size) && HasPassword(f) && !f.verified && input != []
    requires IsError(hash(Ucs2Bytes(input)).status)
    ensures PasswordInput(f, size, input, hash, Garbage(Success, f.password)) == Answer(Success, f.(verified := true))
    ensures PasswordInputIntended(f, size, input, hash) == Answer(hash(Ucs2Bytes(input)).status, f)
  {
  }

  // ---------------------------------------------------------------------
  // The password's life.

  /** The stored hash changes only when no password exists yet or the old
      one was verified; verifying never changes it. */
  lemma ChangeNeedsVerify(f: Form, size: nat, input: Ucs2Text, hash: seq<byte> -> HashOutput, g: Garbage)
    requires Sized(f, size) && |g.tempHash| == size
    ensures var r := PasswordInput(f, size, input, hash, g);
      r.form.password != f.password ==> !HasPassword(f) || f.verified
    ensures var r := PasswordInput(f, size, input, hash, g);
      !f.verified && r.form.verified ==> r.form.password == f.password
  {
  }

  /** A typed password whose hash differs from the stored one is refused
      with EFI_NOT_READY and changes nothing. */
  lemma MismatchChangesNothing(f: Form, size: nat, input: Ucs2Text, hash: seq<byte> -> HashOutput, g: Garbage)
    requires Sized(f, size) && |g.tempHash| == size && HasPassword(f) && !f.verified && input != []
    requires StringHash(hash, input, size).Some? && StringHash(hash, input, size).value != f.password
    ensures PasswordInput(f, size, input, hash, g) == Answer(NotReady, f)
  {
  }

  /** Set, verify, change: on a form without a password, typing `first`
      stores its hash; typing `first` again verifies it; typing `second` then
      stores the hash of `second` and clears the verification, after which
      the browser sees a password. */
  lemma {:induction false} SetVerifyChange(f: Form, size: nat, first: Ucs2Text, second: Ucs2Text, hash: seq<byte> -> HashOutput,
                                          g: Garbage)
    requires Sized(f, size) && |g.tempHash| == size && !HasPassword(f) && !f.verified && g.status == Success
    requires first != [] && second != []
    requires StringHash(hash, first, size).Some? && StringHash(hash, second, size).Some?
    requires StringHash(hash, first, size).value[0] != 0 && StringHash(hash, second, size).value[0] != 0
    ensures var setup := PasswordInput(f, size, first, hash, g);
      var verify := PasswordInput(setup.form, size, first, hash, g);
      var change := PasswordInput(verify.form, size, second, hash, g);
      var probe := PasswordInput(change.form, size, [], hash, g);
      && setup == Answer(Success, Form(StringHash(hash, first, size).value, false))
      && verify == Answer(Success, Form(StringHash(hash, first, size).value, true))
      && change == Answer(Success, Form(StringHash(hash, second, size).value, false))
      && probe.status == AlreadyStarted
  {
    var setup := PasswordInput(f, size, first, hash, g);
    assert HasPassword(setup.form);
    var verify := PasswordInput(setup.form, size, first, hash, g);
    assert verify.form.verified;
    var change := PasswordInput(verify.form, size, second, hash, g);
    assert HasPassword(change.form);
  }

  /** A password whose hash starts with a zero byte is stored, yet the
      browser is told no password exists, and the next typed string
      replaces it without any check. */
  lemma ZeroFirstByteHides(f: Form, size: nat, input: Ucs2Text, other: Ucs2Text, hash: seq<byte> -> HashOutput, g: Garbage)
    requires Sized(f, size) && |g.tempHash| == size && !HasPassword(f) && g.status == Success && input != [] && other != []
    requires StringHash(hash, input, size).Some? && StringHash(hash, input, size).value[0] == 0
    requires StringHash(hash, other, size).Some?
    ensures var setup := PasswordInput(f, size, input, hash, g);
      && setup.form.password == StringHash(hash, input, size).value
      && PasswordInput(setup.form, size, [], hash, g).status == Success
      && PasswordInput(setup.form, size, other, hash, g).form.password == StringHash(hash, other, size).value
  {
  }

  // ---------------------------------------------------------------------
  // The driver's state.

  /** FormStorage.Password and OldPasswordVerified, the globals
      HandlePasswordInput updates. */
  class PasswordStorage {
    /** HASHED_PASSWORD_SIZE. */
    const size: nat
    /** KEY_PASSWORD, the question id of the password. */
    const key: u16
    var password: seq<byte>
    var verified: bool

    ghost predicate Valid()
      reads this
    {
      Sized(Form(password, verified), size)
    }

    /** The storage as the driver is loaded: zeroed, so no password. */
    constructor (size: nat, key: u16)
      requires 1 <= size <= SHA512_DIGEST_SIZE
      ensures Valid() && this.size == size && this.key == key
      ensures password == seq(size, _ => 0) && !verified
    {
      this.size := size;
      this.key := key;
      password := seq(size, _ => 0);
      verified := false;
    }

    /** HandlePasswordInput: the browser's request, told apart by whether
        the string is empty and by the state of the storage. */
    method HandlePasswordInput(input: Ucs2Text, hash: seq<byte> -> HashOutput, g: Garbage) returns (status: Status)
      requires Valid() && |g.tempHash| == size
      modifies this
      ensures Valid()
      ensures Answer(status, Form(password, verified)) == PasswordInput(Form(old(password), old(verified)), size, input, hash, g)
    {
      if input == [] {
        if password[0] != 0 {
          return AlreadyStarted;
        } else {
          return Success;
        }
      }
      if password[0] == 0 {
        var h := StringHash(hash, input, size);
        if h.Some? {
          password := h.value;
        }
        if IsError(g.status) {
          return g.status;
        }
        return Success;
      }
      if !verified {
        var h := StringHash(hash, input, size);
        var tempHash := if h.Some? then h.value else g.tempHash;
        if tempHash != password {
          return NotReady;
        }
        verified := true;
        return Success;
      }
      var h := StringHash(hash, input, size);
      if h.None? {
        return hash(Ucs2Bytes(input)).status;
      }
      password := h.value;
      verified := false;
      return Success;
    }

    /** Callback: only a change of the password question carrying a string
        reaches HandlePasswordInput; everything else is declined with
        EFI_UNSUPPORTED and changes nothing. */
    method Callback(action: nat, questionId: u16, v: IfrValue, getString: u16 -> Ucs2Text, hash: seq<byte> -> HashOutput,
                    g: Garbage) returns (status: Status)
      requires Valid() && |g.tempHash| == size
      modifies this
      ensures Valid()
      ensures questionId != key || action != EFI_BROWSER_ACTION_CHANGING || U16At(v, 0) == 0 ==>
        status == Unsupported && password == old(password) && verified == old(verified)
      ensures questionId == key && action == EFI_BROWSER_ACTION_CHANGING && U16At(v, 0) != 0 ==>
        Answer(status, Form(password, verified))
        == PasswordInput(Form(old(password), old(verified)), size, getString(U16At(v, 0)), hash, g)
    {
      if questionId == key && action == EFI_BROWSER_ACTION_CHANGING {
        if U16At(v, 0) == 0 {
          return Unsupported;
        }
        var input := getString(U16At(v, 0));
        status := HandlePasswordInput(input, hash, g);
        return;
      }
      return Unsupported;
    }
  }
}
