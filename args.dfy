/**
 * The command-line convention of main.go: the tokens after the program name
 * are read two at a time as `key value`, and each key is stripped of every
 * double quote and every dash before it names an option.
 */
module ArgParser {

  /** Go's `Arguments`: option name to option value. */
  type Arguments = map<string, string>

  /** `strings.ReplaceAll(s, c, "")` for a one-character `c`: every `c` is dropped. */
  function RemoveAll(s: string, c: char): string
  {
    if s == [] then []
    else (if s[0] == c then [] else [s[0]]) + RemoveAll(s[1..], c)
  }

  /**
   * Removing `c` leaves no `c` and every other character exactly as often as
   * it occurred.
   */
  lemma {:induction false} RemoveAllKeepsOthers(s: string, c: char)
    ensures c !in RemoveAll(s, c)
    ensures forall x :: x in RemoveAll(s, c) <==> x in s && x != c
    ensures multiset(RemoveAll(s, c)) == multiset(s)[c := 0]
    ensures c !in s ==> RemoveAll(s, c) == s
  {
    if s != [] {
      RemoveAllKeepsOthers(s[1..], c);
      assert s == [s[0]] + s[1..];
      assert multiset(s) == multiset{s[0]} + multiset(s[1..]);
    }
  }

  /**
   * Removal works piece by piece, so the surviving characters keep their order:
   * together with the one-character cases this fixes `RemoveAll` completely.
   */
  lemma {:induction false} RemoveAllAppend(a: string, b: string, c: char)
    ensures RemoveAll(a + b, c) == RemoveAll(a, c) + RemoveAll(b, c)
    ensures RemoveAll([c], c) == []
    ensures forall x :: x != c ==> RemoveAll([x], c) == [x]
  {
    if a != [] {
      RemoveAllAppend(a[1..], b, c);
      assert (a + b)[1..] == a[1..] + b;
    } else {
      assert a + b == b;
    }
  }

  /** The option name a key token stands for: first every `"`, then every `-` removed. */
  function StripKey(token: string): string
  {
    RemoveAll(RemoveAll(token, '"'), '-')
  }

  /**
   * An option name holds no `"` and no `-`, keeps every other character of its
   * token, and a token without either character is its own name.
   */
  lemma StripKeyCharacters(token: string)
    ensures '"' !in StripKey(token) && '-' !in StripKey(token)
    ensures forall x :: x in StripKey(token) <==> x in token && x != '"' && x != '-'
    ensures multiset(StripKey(token)) == multiset(token)['"' := 0]['-' := 0]
    ensures '"' !in token && '-' !in token ==> StripKey(token) == token
  {
    RemoveAllKeepsOthers(token, '"');
    RemoveAllKeepsOthers(RemoveAll(token, '"'), '-');
  }

  /**
   * Stripping works piece by piece: the option name is the token's other
   * characters in their order, a `"` or `-` giving nothing.
   */
  lemma StripKeyAppend(a: string, b: string)
    ensures StripKey(a + b) == StripKey(a) + StripKey(b)
    ensures StripKey("\"") == [] && StripKey("-") == []
    ensures forall x :: x != '"' && x != '-' ==> StripKey([x]) == [x]
  {
    RemoveAllAppend(a, b, '"');
    RemoveAllAppend(RemoveAll(a, '"'), RemoveAll(b, '"'), '-');
    RemoveAllAppend([], [], '"');
    RemoveAllAppend([], [], '-');
  }

  /** Position `i` of `cmds` holds a key that has a value after it. */
  predicate KeyAt(cmds: seq<string>, i: int) {
    0 <= i && i % 2 == 0 && i + 1 < |cmds|
  }

  /** The map after the first `n` tokens of `cmds` have been stored pair by pair. */
  function PairsMap(cmds: seq<string>, n: nat): Arguments
    requires n <= |cmds|
  {
    if n < 2 then map[]
    else PairsMap(cmds, n - 2)[StripKey(cmds[n - 2]) := cmds[n - 1]]
  }

  /** The arguments `parseArgs` builds from the tokens `cmds`. */
  function ParsedArgs(cmds: seq<string>): Arguments {
    PairsMap(cmds, |cmds| - |cmds| % 2)
  }

  /**
   * `parseArgs` with the process arguments passed in: the loop steps over the
   * tokens two at a time and stores a pair only when its value token exists.
   */
  method ParseArgs(cmds: seq<string>) returns (args: Arguments)
    ensures args == ParsedArgs(cmds)
  {
    args := map[];
    var l := |cmds|;
    var i := 0;
    while i < l
      invariant 0 <= i <= l + 1 && i % 2 == 0
      invariant args == PairsMap(cmds, if i <= l then i else i - 2)
    {
      if l > i + 1 {
        var id := RemoveAll(cmds[i], '"');
        id := RemoveAll(id, '-');
        args := args[id := cmds[i + 1]];
      }
      i := i + 2;
    }
  }

  /** The keys after `n` tokens are exactly the stripped key tokens among them. */
  lemma {:induction false} PairsMapKeys(cmds: seq<string>, n: nat, name: string)
    requires n <= |cmds| && n % 2 == 0
    ensures name in PairsMap(cmds, n) <==>
      exists i :: 0 <= i < n && i % 2 == 0 && StripKey(cmds[i]) == name
  {
    if n >= 2 {
      PairsMapKeys(cmds, n - 2, name);
      if StripKey(cmds[n - 2]) != name && name in PairsMap(cmds, n) {
        var i :| 0 <= i < n && i % 2 == 0 && StripKey(cmds[i]) == name;
        assert i < n - 2;
      }
    }
  }

  /** The value of a key is that of its last pair among the first `n` tokens. */
  lemma {:induction false} PairsMapLastWins(cmds: seq<string>, n: nat, i: nat)
    requires n <= |cmds| && n % 2 == 0
    requires i < n && i % 2 == 0
    requires forall j :: i < j < n && j % 2 == 0 ==> StripKey(cmds[j]) != StripKey(cmds[i])
    ensures StripKey(cmds[i]) in PairsMap(cmds, n)
    ensures PairsMap(cmds, n)[StripKey(cmds[i])] == cmds[i + 1]
  {
    if i < n - 2 {
      PairsMapLastWins(cmds, n - 2, i);
    }
  }

  /**
   * Every option name in the result comes from a key token at an even position
   * that has a value after it, and every such key token yields an option.
   */
  lemma ParsedArgsKeys(cmds: seq<string>, name: string)
    ensures name in ParsedArgs(cmds) <==>
      exists i :: KeyAt(cmds, i) && StripKey(cmds[i]) == name
  {
    var n := |cmds| - |cmds| % 2;
    PairsMapKeys(cmds, n, name);
    if name in ParsedArgs(cmds) {
      var i :| 0 <= i < n && i % 2 == 0 && StripKey(cmds[i]) == name;
      assert KeyAt(cmds, i);
    }
  }

  /** For repeated option names the pair that comes last wins. */
  lemma ParsedArgsLastWins(cmds: seq<string>, i: nat)
    requires KeyAt(cmds, i)
    requires forall j :: KeyAt(cmds, j) && i < j ==> StripKey(cmds[j]) != StripKey(cmds[i])
    ensures StripKey(cmds[i]) in ParsedArgs(cmds)
    ensures ParsedArgs(cmds)[StripKey(cmds[i])] == cmds[i + 1]
  {
    var n := |cmds| - |cmds| % 2;
    forall j | i < j < n && j % 2 == 0
      ensures StripKey(cmds[j]) != StripKey(cmds[i])
    {
      assert KeyAt(cmds, j);
    }
    PairsMapLastWins(cmds, n, i);
  }

  /** The first `n` tokens' pairs do not depend on the tokens after them. */
  lemma {:induction false} PairsMapPrefix(cmds: seq<string>, more: seq<string>, n: nat)
    requires n <= |cmds|
    ensures PairsMap(cmds + more, n) == PairsMap(cmds, n)
  {
    if n >= 2 {
      PairsMapPrefix(cmds, more, n - 2);
      assert (cmds + more)[n - 2] == cmds[n - 2];
      assert (cmds + more)[n - 1] == cmds[n - 1];
    }
  }

  /** A lone trailing token is dropped: it adds nothing to the arguments. */
  lemma DanglingTokenDropped(cmds: seq<string>, token: string)
    requires |cmds| % 2 == 0
    ensures ParsedArgs(cmds + [token]) == ParsedArgs(cmds)
  {
    PairsMapPrefix(cmds, [token], |cmds|);
  }

  /** A `-name` key token stands for the option `name`. */
  lemma DashedKey(name: string)
    requires '"' !in name && '-' !in name
    ensures StripKey("-" + name) == name
  {
    StripKeyCharacters(name);
    RemoveAllKeepsOthers(name, '"');
    var s := "-" + name;
    assert s[0] == '-' && s[1..] == name;
    assert RemoveAll(s, '"') == s;
  }

  /** Two key tokens naming `operation` and `fileName` give exactly those two options. */
  lemma OperationAndFile(opKey: string, op: string, fileKey: string, fileName: string)
    requires StripKey(opKey) == "operation" && StripKey(fileKey) == "fileName"
    ensures ParsedArgs([opKey, op, fileKey, fileName]) ==
      map["operation" := op, "fileName" := fileName]
  {
    var cmds := [opKey, op, fileKey, fileName];
    assert PairsMap(cmds, 2) == map["operation" := op];
  }

  /** The tokens `-operation` and `-fileName` stand for the options `operation` and `fileName`. */
  lemma StandardKeys()
    ensures StripKey("-operation") == "operation"
    ensures StripKey("-fileName") == "fileName"
  {
    DashedKey("operation");
    DashedKey("fileName");
    assert "-" + "operation" == "-operation";
    assert "-" + "fileName" == "-fileName";
  }

  /** The command line `-operation <op> -fileName <fileName>` gives exactly those two options. */
  lemma ParsedCommandLine(op: string, fileName: string)
    ensures ParsedArgs(["-operation", op, "-fileName", fileName]) ==
      map["operation" := op, "fileName" := fileName]
  {
    StandardKeys();
    OperationAndFile("-operation", op, "-fileName", fileName);
  }
}
