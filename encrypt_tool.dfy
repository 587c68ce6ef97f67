/** The encryption tool (app/tools/encrypt/page.tsx): a password typed twice,
    rated by a four-point strength score, protects the selected file. The
    encryption routine itself is external and given as a parameter. */
module EncryptTool {
  import opened Wrappers
  import opened PdfLib
  import opened ToolState

  // ---------------------------------------------------------------- strength

  predicate IsUpper(c: char) { 'A' <= c <= 'Z' }
  predicate IsDigit(c: char) { '0' <= c <= '9' }
  predicate IsAlphanumeric(c: char) { 'a' <= c <= 'z' || IsUpper(c) || IsDigit(c) }

  /** `/[A-Z]/.test(pwd)`. */
  predicate HasUpper(pwd: string) { exists i :: 0 <= i < |pwd| && IsUpper(pwd[i]) }
  /** `/[0-9]/.test(pwd)`. */
  predicate HasDigit(pwd: string) { exists i :: 0 <= i < |pwd| && IsDigit(pwd[i]) }
  /** `/[^a-zA-Z0-9]/.test(pwd)`. */
  predicate HasSymbol(pwd: string) { exists i :: 0 <= i < |pwd| && !IsAlphanumeric(pwd[i]) }

  function Point(b: bool): nat { if b then 1 else 0 }

  datatype Strength = Weak | Medium | Strong

  /** The rating shown under the password field: the strength and the score. */
  datatype Rating = Rating(strength: Strength, score: nat)

  /** `calculatePasswordStrength`: one point each for a length of at least 8, a
      capital letter, a digit and a character that is neither; 0 or 1 point is
      weak, 2 or 3 medium, 4 strong. The empty password is weak with score 0. */
  function PasswordStrength(pwd: string): (r: Rating)
    ensures pwd == "" ==> r == Rating(Weak, 0)
  {
    if pwd == "" then Rating(Weak, 0)
    else
      var score := Point(|pwd| >= 8) + Point(HasUpper(pwd)) + Point(HasDigit(pwd)) + Point(HasSymbol(pwd));
      if score <= 1 then Rating(Weak, score)
      else if score <= 3 then Rating(Medium, score)
      else Rating(Strong, score)
  }

  /** The score never exceeds 4, and the strength is weak, medium or strong
      exactly when the score is at most 1, 2 or 3, or 4. */
  lemma StrengthBands(pwd: string)
    ensures PasswordStrength(pwd).score <= 4
    ensures PasswordStrength(pwd).strength == Weak <==> PasswordStrength(pwd).score <= 1
    ensures PasswordStrength(pwd).strength == Medium <==> 2 <= PasswordStrength(pwd).score <= 3
    ensures PasswordStrength(pwd).strength == Strong <==> PasswordStrength(pwd).score == 4
  {
  }

  /** A password is strong exactly when it meets all four criteria. */
  lemma StrongMeansAllCriteria(pwd: string)
    ensures PasswordStrength(pwd).strength == Strong <==>
              |pwd| >= 8 && HasUpper(pwd) && HasDigit(pwd) && HasSymbol(pwd)
  {
  }

  /** Typing more characters never lowers the score. */
  lemma ScoreGrowsWithTyping(pwd: string, more: string)
    ensures PasswordStrength(pwd).score <= PasswordStrength(pwd + more).score
  {
    var p := pwd + more;
    if pwd != "" {
      assert forall i :: 0 <= i < |pwd| ==> p[i] == pwd[i];
      if HasUpper(pwd) {
        var i :| 0 <= i < |pwd| && IsUpper(pwd[i]);
        assert IsUpper(p[i]);
      }
      if HasDigit(pwd) {
        var i :| 0 <= i < |pwd| && IsDigit(pwd[i]);
        assert IsDigit(p[i]);
      }
      if HasSymbol(pwd) {
        var i :| 0 <= i < |pwd| && !IsAlphanumeric(pwd[i]);
        assert !IsAlphanumeric(p[i]);
      }
    }
  }

  // ---------------------------------------------------------------- tool

  /** The options handed to the encryption routine: the tool sets only the
      password needed to open the document. */
  datatype EncryptionOptions = EncryptionOptions(userPassword: string)

  const SecuredMessage := "Document secured."
  const FailedMessage := "Encryption failed."

  /** The encryption tool's state. */
  class Encryptor {
    var file: Option<File>
    var password: string
    var confirmPassword: string
    var status: Status
    var message: string
    var downloads: seq<Download>

    constructor()
      ensures file == None && password == "" && confirmPassword == "" && status == Idle
      ensures message == "" && downloads == []
    {
      file := None;
      password := "";
      confirmPassword := "";
      status := Idle;
      message := "";
      downloads := [];
    }

    /** The form may be submitted: a file, a non-empty password, and the same
        password typed twice. */
    predicate Ready()
      reads this
    {
      file.Some? && password != "" && password == confirmPassword
    }

    /** `handleFileSelected`: a new file clears both password fields. */
    method HandleFileSelected(selected: seq<File>)
      modifies this
      ensures file == First(selected) && status == Idle && password == "" && confirmPassword == ""
      ensures !Ready()
      ensures message == old(message) && downloads == old(downloads)
    {
      file := First(selected);
      status := Idle;
      password := "";
      confirmPassword := "";
    }

    /** The Change button: the file is dropped; the passwords stay. */
    method RemoveFile()
      modifies this
      ensures file == None && !Ready() && password == old(password) && confirmPassword == old(confirmPassword)
      ensures status == old(status) && message == old(message) && downloads == old(downloads)
    {
      file := None;
    }

    method SetPassword(p: string)
      modifies this
      ensures password == p
      ensures file == old(file) && confirmPassword == old(confirmPassword)
      ensures status == old(status) && message == old(message) && downloads == old(downloads)
    {
      password := p;
    }

    method SetConfirmPassword(p: string)
      modifies this
      ensures confirmPassword == p
      ensures file == old(file) && password == old(password)
      ensures status == old(status) && message == old(message) && downloads == old(downloads)
    {
      confirmPassword := p;
    }

    /** `handleEncrypt`: unless the form is ready nothing happens; otherwise the
        file is encrypted with the password as its user password and downloaded.
        `encrypt` is the external encryption routine. */
    method HandleEncrypt(encrypt: (File, EncryptionOptions) -> Result<seq<bv8>, string>)
      modifies this
      ensures file == old(file) && password == old(password) && confirmPassword == old(confirmPassword)
      ensures !old(Ready()) ==> status == old(status) && message == old(message) && downloads == old(downloads)
      ensures old(Ready()) ==>
                match encrypt(old(file).value, EncryptionOptions(old(password)))
                case Ok(bytes) =>
                  status == Success && message == SecuredMessage
                  && downloads == old(downloads) + [Download("encrypted-" + old(file).value.name, Bytes(bytes))]
                case Err(_) =>
                  status == Error && message == FailedMessage && downloads == old(downloads)
    {
      if file.None? || password == "" || password != confirmPassword {
        return;
      }
      var f := file.value;
      var options := EncryptionOptions(password);
      var encryptedPdf := encrypt(f, options);
      if encryptedPdf.Ok? {
        downloads := downloads + [Download("encrypted-" + f.name, Bytes(encryptedPdf.value))];
        status := Success;
        message := SecuredMessage;
      } else {
        status := Error;
        message := FailedMessage;
      }
    }
  }
}
