/** The decryption tool (app/tools/decrypt/page.tsx): a selected file is first
    probed by loading it, which decides whether it is known to be encrypted,
    known not to be, or undecided; a password then removes the protection. The
    decryption routine itself is external and given as a parameter. */
module DecryptTool {
  import opened Wrappers
  import opened PdfLib
  import opened ToolState
  import opened Text

  /** The load error mentions a password, encryption or decryption. */
  predicate MentionsProtection(lowered: string) {
    Contains(lowered, "password") || Contains(lowered, "encrypted") || Contains(lowered, "decrypt")
  }

  /** The probe's verdict (`isEncrypted`): `Some(false)` when the file loads,
      `Some(true)` when the load error, lower-cased, mentions protection, and
      `None` (undecided) otherwise, including when no file was selected. */
  function Probe(file: Option<File>): (r: Option<bool>)
    ensures r == Some(false) <==> file.Some? && Parse(file.value).Ok?
    ensures r == Some(true) <==> file.Some? && Parse(file.value).Err?
                                 && MentionsProtection(Lower(Parse(file.value).error.message))
  {
    if file.None? then None
    else
      match Parse(file.value)
      case Ok(_) => Some(false)
      case Err(e) => if MentionsProtection(Lower(e.message)) then Some(true) else None
  }

  /** The probe catches the words whatever their case in the library's message:
      a message that contains one of them as written is classified encrypted. */
  lemma ProbeSeesWordsAsWritten(f: File)
    requires Parse(f).Err?
    requires var m := Parse(f).error.message;
             Contains(m, "password") || Contains(m, "encrypted") || Contains(m, "decrypt")
    ensures Probe(Some(f)) == Some(true)
  {
    var m := Parse(f).error.message;
    if Contains(m, "password") {
      LowerKeepsLowerWord(m, "password");
    } else if Contains(m, "encrypted") {
      LowerKeepsLowerWord(m, "encrypted");
    } else {
      LowerKeepsLowerWord(m, "decrypt");
    }
  }

  /** The password form is shown for a file unless the probe decided it is not
      encrypted: an undecided probe still asks for a password. */
  predicate ShowsPasswordForm(file: Option<File>, isEncrypted: Option<bool>) {
    file.Some? && isEncrypted != Some(false)
  }

  lemma FormShownUnlessLoadable(f: File)
    ensures ShowsPasswordForm(Some(f), Probe(Some(f))) <==> Parse(f).Err?
  {
  }

  const IncorrectMessage := "Incorrect password."
  const FailedMessage := "Decryption failed."
  const RemovedMessage := "Password removed successfully."
  const NotEncryptedMessage := "File is not encrypted."

  /** The message shown when decryption throws: a wrong password when the
      error message contains "password" or "Incorrect", letters compared as
      written; a plain failure otherwise. */
  function FailureMessage(error: string): (r: string)
    ensures r == IncorrectMessage || r == FailedMessage
    ensures r == IncorrectMessage <==> Contains(error, "password") || Contains(error, "Incorrect")
  {
    if Contains(error, "password") || Contains(error, "Incorrect") then IncorrectMessage else FailedMessage
  }

  /** Unlike the probe, the failure message compares letters as written: an
      error that says "Password" with a capital only is a plain failure. */
  lemma CapitalisedPasswordIsPlainFailure()
    ensures FailureMessage("Password") == FailedMessage
  {
    assert !OccursAt("Password", "password", 0) by {
      assert "Password"[0] != "password"[0];
    }
    assert !OccursAt("Password", "Incorrect", 0);
  }

  /** The decryption tool's state. */
  class Decryptor {
    var file: Option<File>
    var password: string
    var status: Status
    var message: string
    var isEncrypted: Option<bool>
    var downloads: seq<Download>

    constructor()
      ensures file == None && password == "" && status == Idle && message == ""
      ensures isEncrypted == None && downloads == []
    {
      file := None;
      password := "";
      status := Idle;
      message := "";
      isEncrypted := None;
      downloads := [];
    }

    /** `handleFileSelected`: the first file selected becomes the file, the
        password and message are cleared, and the file is probed. */
    method HandleFileSelected(selected: seq<File>)
      modifies this
      ensures file == First(selected) && status == Idle && password == ""
      ensures isEncrypted == Probe(First(selected))
      ensures message == (if isEncrypted == Some(false) then NotEncryptedMessage else "")
      ensures downloads == old(downloads)
    {
      file := First(selected);
      status := Idle;
      password := "";
      message := "";
      if selected == [] {
        isEncrypted := None;
        return;
      }
      var loaded := Load(selected[0]);
      if loaded.Ok? {
        isEncrypted := Some(false);
        status := Idle;
        message := NotEncryptedMessage;
      } else {
        var errorMsg := Lower(loaded.error.message);
        if MentionsProtection(errorMsg) {
          isEncrypted := Some(true);
        } else {
          isEncrypted := None;
        }
      }
    }

    /** The Change button: the file is dropped; the password and the probe's verdict stay. */
    method RemoveFile()
      modifies this
      ensures file == None && password == old(password) && status == old(status) && message == old(message)
      ensures isEncrypted == old(isEncrypted) && downloads == old(downloads)
    {
      file := None;
    }

    method SetPassword(p: string)
      modifies this
      ensures password == p
      ensures file == old(file) && status == old(status) && message == old(message)
      ensures isEncrypted == old(isEncrypted) && downloads == old(downloads)
    {
      password := p;
    }

    /** `handleDecrypt`: without a file or a password nothing happens; otherwise
        the decrypted file is downloaded, or the failure is reported.
        `decrypt` is the external decryption routine. */
    method HandleDecrypt(decrypt: (File, string) -> Result<seq<bv8>, string>)
      modifies this
      ensures file == old(file) && password == old(password) && isEncrypted == old(isEncrypted)
      ensures old(file).None? || old(password) == "" ==>
                status == old(status) && message == old(message) && downloads == old(downloads)
      ensures old(file).Some? && old(password) != "" ==>
                match decrypt(old(file).value, old(password))
                case Ok(bytes) =>
                  status == Success && message == RemovedMessage
                  && downloads == old(downloads) + [Download("decrypted-" + old(file).value.name, Bytes(bytes))]
                case Err(e) =>
                  status == Error && message == FailureMessage(e) && downloads == old(downloads)
    {
      if file.None? || password == "" {
        return;
      }
      var f := file.value;
      var decryptedPdf := decrypt(f, password);
      if decryptedPdf.Ok? {
        downloads := downloads + [Download("decrypted-" + f.name, Bytes(decryptedPdf.value))];
        status := Success;
        message := RemovedMessage;
      } else {
        status := Error;
        message := FailureMessage(decryptedPdf.error);
      }
    }
  }
}
