/** How the page's file check and the server's extension check relate: the
    page lower-cases the name and knows only Python and C, the server
    compares case-sensitively and lets an unknown language through. */
module Agreement {
  import opened Wrappers
  import opened PyStrings
  import Server
  import Frontend

  /** For Python and C, whatever the server accepts the page accepts too. */
  lemma ServerAcceptedPasses(name: string, language: string)
    requires language == "python" || language == "c"
    requires EndsWith(name, Server.AllowedExtension(language))
    ensures Frontend.ValidateFile(Some(name), language)
  {
    var ext := Server.AllowedExtension(language);
    assert Frontend.Lower(ext) == ext;
    Frontend.ValidateFileIff(name, language);
  }

  /** For a name without upper case, what the page accepts the server accepts. */
  lemma LowerCasePassesServer(name: string, language: string)
    requires Frontend.Lower(name) == name
    requires Frontend.ValidateFile(Some(name), language)
    ensures language == "python" || language == "c"
    ensures EndsWith(name, Server.AllowedExtension(language))
  {
    Frontend.ValidateFileIff(name, language);
    var ext := Server.AllowedExtension(language);
    var tail := name[|name| - |ext|..];
    assert Frontend.Lower(tail) == tail by {
      forall i | 0 <= i < |tail|
        ensures Frontend.Lower(tail)[i] == tail[i]
      {
        assert tail[i] == name[|name| - |ext| + i];
        assert Frontend.Lower(name)[|name| - |ext| + i] == name[|name| - |ext| + i];
      }
    }
  }

  /** The two checks disagree both ways: `MAIN.PY` passes the page and not
      the server for Python, and `Main.java` passes the server's extension
      check and not the page for Java. */
  lemma ChecksDisagree()
    ensures Frontend.ValidateFile(Some("MAIN.PY"), "python")
    ensures !EndsWith("MAIN.PY", Server.AllowedExtension("python"))
    ensures !Frontend.ValidateFile(Some("Main.java"), "java")
    ensures EndsWith("Main.java", Server.AllowedExtension("java"))
  {
    Frontend.UpperCaseNamePasses();
    assert "MAIN.PY"[4..] != ".py";
    assert "Main.java"[9..] == [];
  }
}
