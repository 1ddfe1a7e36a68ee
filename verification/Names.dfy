/** FileManager::isStringValid, and what the commands make of the names they are given. */
module Names {
  import opened Config
  import opened Codecs
  import opened Env
  import opened Store
  import opened Protocol

  /** `strspn`: the length of the longest start of `s` all of whose bytes are in `accept`. */
  method Strspn(s: bytes, accept: string) returns (n: nat)
    ensures n <= |s| && (forall i :: 0 <= i < n ==> s[i] as char in accept) && (n < |s| ==> s[n] as char !in accept)
  {
    n := 0;
    while n < |s|
      invariant n <= |s| && forall i :: 0 <= i < n ==> s[i] as char in accept
    {
      var k := 0;
      while k < |accept| && accept[k] != s[n] as char
        invariant 0 <= k <= |accept| && s[n] as char !in accept[..k]
      {
        k := k + 1;
      }
      if k == |accept| {
        return;
      }
      n := n + 1;
    }
  }

  lemma SmallLetters(b: byte)
    ensures b as char in "abcdefghijklmnopqrstuvwxyz" <==> 97 <= b <= 122
  {
  }

  lemma CapitalLetters(b: byte)
    ensures b as char in "ABCDEFGHIJKLMNOPQRSTUVWXYZ" <==> 65 <= b <= 90
  {
  }

  lemma DigitsAndSigns(b: byte)
    ensures b as char in "1234567890_-.@" <==> 48 <= b <= 57 || b == 95 || b == 45 || b == 46 || b == 64
  {
  }

  lemma WholeWhitelist()
    ensures "abcdefghijklmnopqrstuvwxyzABCDEFGHIJKLMNOPQRSTUVWXYZ1234567890_-.@"
         == "abcdefghijklmnopqrstuvwxyz" + "ABCDEFGHIJKLMNOPQRSTUVWXYZ" + "1234567890_-.@"
  {
  }

  lemma InParts(c: char, s: string, t: string, u: string, whole: string)
    requires whole == s + t + u
    ensures c in whole <==> c in s || c in t || c in u
  {
  }

  /** Letters, digits and four signs are the characters of the whitelist. */
  lemma WhitelistedIff(b: byte)
    ensures Whitelisted(b) <==> b as char in "abcdefghijklmnopqrstuvwxyzABCDEFGHIJKLMNOPQRSTUVWXYZ1234567890_-.@"
  {
    WholeWhitelist();
    InParts(b as char, "abcdefghijklmnopqrstuvwxyz", "ABCDEFGHIJKLMNOPQRSTUVWXYZ", "1234567890_-.@",
            "abcdefghijklmnopqrstuvwxyzABCDEFGHIJKLMNOPQRSTUVWXYZ1234567890_-.@");
    SmallLetters(b);
    CapitalLetters(b);
    DigitsAndSigns(b);
  }

  /** All characters in the whitelist, neither empty nor too long for its field, and neither "." nor "..". */
  predicate Allowed(s: Name) {
    && (forall i :: 0 <= i < |s| ==> s[i] as char in "abcdefghijklmnopqrstuvwxyzABCDEFGHIJKLMNOPQRSTUVWXYZ1234567890_-.@")
    && 1 <= |s| <= 34 && s != [46] && s != [46, 46]
  }

  /** The specification and the step functions go by exactly the allowed names. */
  lemma ValidNameIff(s: Name)
    ensures ValidName(s) <==> Allowed(s)
  {
    hide Whitelisted;
    forall i | 0 <= i < |s|
      ensures Whitelisted(s[i]) <==> s[i] as char in "abcdefghijklmnopqrstuvwxyzABCDEFGHIJKLMNOPQRSTUVWXYZ1234567890_-.@"
    {
      WhitelistedIff(s[i]);
    }
  }

  method IsStringValid(s: Name) returns (valid: bool)
    ensures valid <==> Allowed(s)
  {
    var whitelist := "abcdefghijklmnopqrstuvwxyzABCDEFGHIJKLMNOPQRSTUVWXYZ1234567890_-.@";
    var n := Strspn(s, whitelist);
    if n < |s| {
      return false;
    }
    if s == [] {
      return false;
    }
    if |s| >= FILE_NAME_LEN {
      return false;
    }
    if s == [46] || s == [46, 46] {
      return false;
    }
    valid := true;
  }

  // ---- The checks of the commands ----

  /** The names a command is given. */
  function NamesOf(op: Op): seq<Name> {
    match op
    case Download(name) => [name]
    case Upload(name) => [name]
    case Rename(oldName, newName) => [oldName, newName]
    case Delete(name, _) => [name]
    case _ => []
  }

  /** Every name is allowed, and a file to delete is in the user's storage directory. */
  predicate PassesMenu(op: Op, dir: Dir) {
    (forall name :: name in NamesOf(op) ==> Allowed(name)) && (op.Delete? ==> op.name in dir)
  }

  /** The menu skips a command, sending nothing, exactly when a name is not allowed or a file to delete is missing. */
  lemma SkippedIff(env: Env, w: World, c: ClientState)
    requires c.todo != []
    ensures ClientBegin(c, w.dir) == Finish(c, Skipped) <==> !PassesMenu(c.todo[0], w.dir)
    ensures Atomic(env, w, c.todo[0]) == Result(w, Skipped) <==> !PassesMenu(c.todo[0], w.dir)
  {
    hide Allowed, ValidName;
    forall name | name in NamesOf(c.todo[0]) ensures ValidName(name) <==> Allowed(name) {
      ValidNameIff(name);
    }
    SkippedByName(env, w, c);
  }

  lemma SkippedByName(env: Env, w: World, c: ClientState)
    requires c.todo != []
    ensures var fine := (forall name :: name in NamesOf(c.todo[0]) ==> ValidName(name)) && (c.todo[0].Delete? ==> c.todo[0].name in w.dir);
            && (ClientBegin(c, w.dir) == Finish(c, Skipped) <==> !fine)
            && (Atomic(env, w, c.todo[0]) == Result(w, Skipped) <==> !fine)
  {
    hide ValidName;
    var o := Finish(c, Skipped);
    assert o.done[|c.done|] == Skipped && |o.done| == |c.done| + 1;
    match c.todo[0]
    case Download(name) => assert NamesOf(c.todo[0]) == [name];
    case Upload(name) => assert NamesOf(c.todo[0]) == [name];
    case Rename(oldName, newName) => assert NamesOf(c.todo[0]) == [oldName, newName];
    case Delete(name, _) => assert NamesOf(c.todo[0]) == [name];
    case _ => assert NamesOf(c.todo[0]) == [];
  }
}
