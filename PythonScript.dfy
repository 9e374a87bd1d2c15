/** Calling into an embedded Python interpreter
    (com.raytheon.uf.common.python.PythonScript): the Python statements built
    to call a method with keyword arguments, to clean the arguments up, to read
    the result, to read a method's argument names and to instantiate a class.

    The interpreter is an append-only log of the calls made on it; the values it
    returns are given by an injected function of that log. UUID.randomUUID is an
    injected supply of strings indexed by a counter. */
module Python {
  import opened Wrappers

  /** The Java objects that cross the interpreter boundary, as far as the
      script looks at them. PyNone is Java null. */
  datatype PyObject = PyNone | PyInt(i: int) | PyStr(s: string) | PyOther(id: nat)

  /** One call on the interpreter. evaluateArgument belongs to the
      interpreter base class and is recorded as it is made. */
  datatype JepCall =
    | Eval(code: string)
    | Set(name: string, value: PyObject)
    | EvaluateArgument(name: string, value: PyObject)

  /** The Java exceptions the script lets escape. */
  datatype JavaError = NullPointer | ClassCast | NegativeArraySize | IndexOutOfBounds

  /** The entries of a map in its iteration order; a null map has none. */
  type Args = Option<seq<(string, PyObject)>>

  function Entries(args: Args): seq<(string, PyObject)>
  {
    if args.None? then [] else args.value
  }

  const ResultName: string := "__result"

  // ---------------------------------------------------------------------------
  // Strings

  /** String.replace('-', '_'). */
  function Underscored(s: string): (r: string)
    ensures |r| == |s| && '-' !in r
    ensures forall k :: 0 <= k < |s| ==> r[k] == (if s[k] == '-' then '_' else s[k])
  {
    seq(|s|, k requires 0 <= k < |s| => if s[k] == '-' then '_' else s[k])
  }

  /** Two UUID strings without '_' stay different after the replacement. */
  lemma UnderscoredInjective(a: string, b: string)
    requires '_' !in a && '_' !in b
    requires Underscored(a) == Underscored(b)
    ensures a == b
  {
    forall k | 0 <= k < |a| ensures a[k] == b[k] {
      assert Underscored(a)[k] == Underscored(b)[k];
      assert a[k] != '_' && b[k] != '_';
    }
  }

  /** The elements joined with ", " in between. */
  function Join(parts: seq<string>): string
  {
    if |parts| == 0 then ""
    else if |parts| == 1 then parts[0]
    else parts[0] + ", " + Join(parts[1..])
  }

  // ---------------------------------------------------------------------------
  // The call string of internalExecute

  function UniqueName(key: string, uuid: nat -> string, n: nat): string
  {
    key + Underscored(uuid(n))
  }

  /** "key=uniqueKey" for the argument whose unique name uses the n-th UUID. */
  function Binding(key: string, uuid: nat -> string, n: nat): string
  {
    key + "=" + UniqueName(key, uuid, n)
  }

  function NonSelfCount(entries: seq<(string, PyObject)>): nat
  {
    if entries == [] then 0
    else (if entries[0].0 == "self" then 0 else 1) + NonSelfCount(entries[1..])
  }

  /** The keyword arguments of the call, as the loop writes them: every
      non-"self" entry contributes its binding, followed by ", " whenever the
      iterator has further entries, whatever they are. */
  function CallArgs(entries: seq<(string, PyObject)>, uuid: nat -> string, n: nat): string
  {
    if entries == [] then ""
    else if entries[0].0 == "self" then CallArgs(entries[1..], uuid, n)
    else
      Binding(entries[0].0, uuid, n) + (if |entries| > 1 then ", " else "") + CallArgs(entries[1..], uuid, n + 1)
  }

  /** The unique names generated, in order. */
  function UniqueNames(entries: seq<(string, PyObject)>, uuid: nat -> string, n: nat): seq<string>
  {
    if entries == [] then []
    else if entries[0].0 == "self" then UniqueNames(entries[1..], uuid, n)
    else [UniqueName(entries[0].0, uuid, n)] + UniqueNames(entries[1..], uuid, n + 1)
  }

  /** The evaluateArgument calls, in order. */
  function EvaluatedArgs(entries: seq<(string, PyObject)>, uuid: nat -> string, n: nat): seq<JepCall>
  {
    if entries == [] then []
    else if entries[0].0 == "self" then EvaluatedArgs(entries[1..], uuid, n)
    else [EvaluateArgument(UniqueName(entries[0].0, uuid, n), entries[0].1)] + EvaluatedArgs(entries[1..], uuid, n + 1)
  }

  /** The non-"self" keys, in order. */
  function NonSelfKeys(entries: seq<(string, PyObject)>): (r: seq<string>)
    ensures |r| == NonSelfCount(entries)
  {
    if entries == [] then []
    else (if entries[0].0 == "self" then [] else [entries[0].0]) + NonSelfKeys(entries[1..])
  }

  /** The statement evaluated to call the method. */
  function CallString(profile: bool, methodName: string, instanceName: Option<string>,
                      entries: seq<(string, PyObject)>, uuid: nat -> string, n: nat): string
  {
    CallStatement(profile, methodName, instanceName, CallArgs(entries, uuid, n))
  }

  /** "__result = [instance.]method(<arguments>)", wrapped in cProfile.run
      with its output file when profiling. */
  function CallStatement(profile: bool, methodName: string, instanceName: Option<string>, argText: string): string
  {
    (if profile then "cProfile.run('" else "")
    + ResultName + " = "
    + (if instanceName.Some? then instanceName.value + "." else "")
    + methodName + "(" + argText + ")"
    + (if profile then "', '/tmp/" + methodName + "')" else "")
  }

  /** Profiling wraps the unprofiled call in cProfile.run, writing to a file
      named after the method. */
  lemma ProfiledCallWraps(methodName: string, instanceName: Option<string>, argText: string)
    ensures CallStatement(true, methodName, instanceName, argText)
            == "cProfile.run('" + CallStatement(false, methodName, instanceName, argText) + "', '/tmp/" + methodName + "')"
  {
    var target := if instanceName.Some? then instanceName.value + "." else "";
    var head := "cProfile.run('";
    var tail := "', '/tmp/" + methodName + "')";
    var inner := ResultName + " = " + target + methodName + "(" + argText + ")";
    assert CallStatement(false, methodName, instanceName, argText) == inner;
    WrapRegroup(head, ResultName, " = ", target, methodName, "(", argText, ")", tail);
  }

  /** The "del" statements of cleanupArgs: "self" is skipped. */
  function Deletions(names: seq<string>): seq<JepCall>
  {
    if names == [] then []
    else (if names[0] == "self" then [] else [Eval("del " + names[0])]) + Deletions(names[1..])
  }

  /** One name's worth of cleanup. */
  lemma DeletionStep(names: seq<string>, i: nat)
    requires i < |names|
    ensures Deletions(names[i..]) ==
              (if names[i] == "self" then [] else [Eval("del " + names[i])]) + Deletions(names[i + 1..])
  {
    assert names[i..][0] == names[i] && names[i..][1..] == names[i + 1..];
  }

  /** Everything internalExecute does to the interpreter. */
  function ExecutionCalls(profile: bool, methodName: string, instanceName: Option<string>,
                          entries: seq<(string, PyObject)>, uuid: nat -> string, n: nat): seq<JepCall>
  {
    EvaluatedArgs(entries, uuid, n)
    + (if profile then [Eval("import cProfile")] else [])
    + [Eval(CallString(profile, methodName, instanceName, entries, uuid, n))]
    + Deletions(UniqueNames(entries, uuid, n))
  }

  /** One iteration of the argument loop, read off the specification functions. */
  lemma ArgumentStep(entries: seq<(string, PyObject)>, uuid: nat -> string, n: nat, i: nat)
    requires i < |entries|
    ensures entries[i].0 == "self" ==>
              && CallArgs(entries[i..], uuid, n) == CallArgs(entries[i + 1..], uuid, n)
              && UniqueNames(entries[i..], uuid, n) == UniqueNames(entries[i + 1..], uuid, n)
              && EvaluatedArgs(entries[i..], uuid, n) == EvaluatedArgs(entries[i + 1..], uuid, n)
              && NonSelfCount(entries[i..]) == NonSelfCount(entries[i + 1..])
    ensures entries[i].0 != "self" ==>
              && CallArgs(entries[i..], uuid, n) ==
                   Binding(entries[i].0, uuid, n) + (if i + 1 < |entries| then ", " else "")
                   + CallArgs(entries[i + 1..], uuid, n + 1)
              && UniqueNames(entries[i..], uuid, n) ==
                   [UniqueName(entries[i].0, uuid, n)] + UniqueNames(entries[i + 1..], uuid, n + 1)
              && EvaluatedArgs(entries[i..], uuid, n) ==
                   [EvaluateArgument(UniqueName(entries[i].0, uuid, n), entries[i].1)]
                   + EvaluatedArgs(entries[i + 1..], uuid, n + 1)
              && NonSelfCount(entries[i..]) == 1 + NonSelfCount(entries[i + 1..])
  {
    assert entries[i..][1..] == entries[i + 1..];
    assert entries[i..][0] == entries[i];
  }

  /** Without a "self" entry the arguments are exactly the bindings joined
      with ", ": no leading, doubled or trailing separator. */
  lemma {:induction false} CallArgsWithoutSelf(entries: seq<(string, PyObject)>, uuid: nat -> string, n: nat)
    requires forall k :: 0 <= k < |entries| ==> entries[k].0 != "self"
    ensures CallArgs(entries, uuid, n) ==
              Join(seq(|entries|, k requires 0 <= k < |entries| => Binding(entries[k].0, uuid, n + k)))
  {
    var parts := seq(|entries|, k requires 0 <= k < |entries| => Binding(entries[k].0, uuid, n + k));
    if |entries| > 1 {
      var rest := entries[1..];
      CallArgsWithoutSelf(rest, uuid, n + 1);
      var restParts := seq(|rest|, k requires 0 <= k < |rest| => Binding(rest[k].0, uuid, n + 1 + k));
      assert parts[1..] == restParts;
    } else if |entries| == 1 {
      assert entries[1..] == [];
    }
  }

  lemma {:induction false} EndsWithSeparator(entries: seq<(string, PyObject)>, uuid: nat -> string, n: nat)
    requires |entries| >= 2
    requires entries[|entries| - 1].0 == "self" && entries[|entries| - 2].0 != "self"
    ensures |CallArgs(entries, uuid, n)| >= 2
    ensures CallArgs(entries, uuid, n)[|CallArgs(entries, uuid, n)| - 2..] == ", "
  {
    var rest := entries[1..];
    if |entries| == 2 {
      assert rest[1..] == [];
      assert CallArgs(rest, uuid, n + 1) == "";
    } else {
      assert rest[|rest| - 1] == entries[|entries| - 1] && rest[|rest| - 2] == entries[|entries| - 2];
      EndsWithSeparator(rest, uuid, n);
      EndsWithSeparator(rest, uuid, n + 1);
      var tail := CallArgs(rest, uuid, n + 1);
      var tail0 := CallArgs(rest, uuid, n);
      var whole := CallArgs(entries, uuid, n);
      if entries[0].0 == "self" {
        assert whole == tail0;
      } else {
        var head := Binding(entries[0].0, uuid, n) + ", ";
        assert whole == head + tail;
        assert whole[|whole| - 2..] == tail[|tail| - 2..];
      }
    }
  }

  /** A "self" entry last in iteration order leaves a dangling ", " after the
      argument before it: the separator depends on the iterator, not on the
      entry that follows being written. */
  lemma TrailingSelfLeavesSeparator(key: string, v: PyObject, w: PyObject, uuid: nat -> string, n: nat)
    requires key != "self"
    ensures CallArgs([(key, v), ("self", w)], uuid, n) == Binding(key, uuid, n) + ", "
  {
    var entries := [(key, v), ("self", w)];
    assert entries[1..] == [("self", w)];
    assert entries[1..][1..] == [];
    assert CallArgs(entries[1..][1..], uuid, n + 1) == "";
    assert CallArgs(entries[1..], uuid, n + 1) == "";
    assert CallArgs(entries, uuid, n) == Binding(key, uuid, n) + ", " + CallArgs(entries[1..], uuid, n + 1);
  }

  lemma {:induction false} UniqueNamesShape(entries: seq<(string, PyObject)>, uuid: nat -> string, n: nat)
    ensures |UniqueNames(entries, uuid, n)| == NonSelfCount(entries)
    ensures forall k :: 0 <= k < |UniqueNames(entries, uuid, n)| ==>
              UniqueNames(entries, uuid, n)[k] == NonSelfKeys(entries)[k] + Underscored(uuid(n + k))
  {
    if entries != [] {
      if entries[0].0 == "self" {
        UniqueNamesShape(entries[1..], uuid, n);
      } else {
        UniqueNamesShape(entries[1..], uuid, n + 1);
      }
    }
  }

  /** With a supply of distinct 36-character UUID strings that contain no
      '_', the unique names are pairwise different. */
  lemma UniqueNamesDistinct(entries: seq<(string, PyObject)>, uuid: nat -> string, n: nat)
    requires forall m :: |uuid(m)| == 36 && '_' !in uuid(m)
    requires forall m1, m2 :: m1 != m2 ==> uuid(m1) != uuid(m2)
    ensures forall k1, k2 :: 0 <= k1 < k2 < |UniqueNames(entries, uuid, n)| ==>
              UniqueNames(entries, uuid, n)[k1] != UniqueNames(entries, uuid, n)[k2]
  {
    UniqueNamesShape(entries, uuid, n);
    var names := UniqueNames(entries, uuid, n);
    var keys := NonSelfKeys(entries);
    forall k1, k2 | 0 <= k1 < k2 < |names| ensures names[k1] != names[k2] {
      var u1, u2 := Underscored(uuid(n + k1)), Underscored(uuid(n + k2));
      if |keys[k1]| == |keys[k2]| {
        if keys[k1] + u1 == keys[k2] + u2 {
          assert u1 == (keys[k1] + u1)[|keys[k1]|..];
          assert u2 == (keys[k2] + u2)[|keys[k2]|..];
          UnderscoredInjective(uuid(n + k1), uuid(n + k2));
        }
      } else {
        assert |keys[k1] + u1| != |keys[k2] + u2|;
      }
    }
  }

  lemma {:induction false} DeletionsOfLongNames(names: seq<string>)
    requires forall k :: 0 <= k < |names| ==> |names[k]| > 4
    ensures Deletions(names) == seq(|names|, k requires 0 <= k < |names| => Eval("del " + names[k]))
  {
    if names != [] {
      assert names[0] != "self";
      DeletionsOfLongNames(names[1..]);
    }
  }

  /** With 36-character UUID strings no unique name is "self", so cleanupArgs
      deletes every generated name, once each, in generation order. */
  lemma EveryUniqueNameDeleted(entries: seq<(string, PyObject)>, uuid: nat -> string, n: nat)
    requires forall m :: |uuid(m)| == 36
    ensures Deletions(UniqueNames(entries, uuid, n)) ==
              seq(|UniqueNames(entries, uuid, n)|, k requires 0 <= k < |UniqueNames(entries, uuid, n)| =>
                Eval("del " + UniqueNames(entries, uuid, n)[k]))
  {
    UniqueNamesShape(entries, uuid, n);
    DeletionsOfLongNames(UniqueNames(entries, uuid, n));
  }

  // ---------------------------------------------------------------------------
  // instantiatePythonClass

  /** The constructor arguments: "key=key" per entry, ", " while more follow. */
  function InitArgs(entries: seq<(string, PyObject)>): string
  {
    if entries == [] then ""
    else entries[0].0 + "=" + entries[0].0 + (if |entries| > 1 then ", " else "") + InitArgs(entries[1..])
  }

  function Sets(entries: seq<(string, PyObject)>): seq<JepCall>
  {
    seq(|entries|, k requires 0 <= k < |entries| => Set(entries[k].0, entries[k].1))
  }

  /** The constructor arguments are the "key=key" bindings joined with ", ". */
  lemma {:induction false} InitArgsJoined(entries: seq<(string, PyObject)>)
    ensures InitArgs(entries) ==
              Join(seq(|entries|, k requires 0 <= k < |entries| => entries[k].0 + "=" + entries[k].0))
  {
    if |entries| > 1 {
      InitArgsJoined(entries[1..]);
      var parts := seq(|entries|, k requires 0 <= k < |entries| => entries[k].0 + "=" + entries[k].0);
      assert parts[1..] == seq(|entries[1..]|, k requires 0 <= k < |entries[1..]| => entries[1..][k].0 + "=" + entries[1..][k].0);
    } else if |entries| == 1 {
      assert entries[1..] == [];
    }
  }

  // ---------------------------------------------------------------------------
  // getArgumentNames

  /** Number.intValue of an integer: the low 32 bits, as a signed value. */
  function IntValue(i: int): (r: int)
    ensures -0x8000_0000 <= r < 0x8000_0000
    ensures -0x8000_0000 <= i < 0x8000_0000 ==> r == i
    ensures (r - i) % 0x1_0000_0000 == 0
  {
    (i + 0x8000_0000) % 0x1_0000_0000 - 0x8000_0000
  }

  /** Every piece between commas, empty ones included. */
  function SplitAll(s: string): (r: seq<string>)
    ensures |r| >= 1
    ensures forall k :: 0 <= k < |r| ==> ',' !in r[k]
  {
    if s == [] then [""]
    else
      var rest := SplitAll(s[1..]);
      if s[0] == ',' then [""] + rest else [[s[0]] + rest[0]] + rest[1..]
  }

  /** The pieces joined back with ",". */
  function JoinCommas(parts: seq<string>): string
  {
    if |parts| == 0 then ""
    else if |parts| == 1 then parts[0]
    else parts[0] + "," + JoinCommas(parts[1..])
  }

  /** Splitting at every comma loses nothing: joining the pieces with commas
      gives the string back. */
  lemma {:induction false} SplitAllRoundTrip(s: string)
    ensures JoinCommas(SplitAll(s)) == s
  {
    if s != [] {
      SplitAllRoundTrip(s[1..]);
      var rest := SplitAll(s[1..]);
      if s[0] == ',' {
        assert ([""] + rest)[1..] == rest;
        assert s == [s[0]] + s[1..];
      } else {
        var r := [[s[0]] + rest[0]] + rest[1..];
        if |rest| == 1 {
          assert s == [s[0]] + rest[0];
        } else {
          assert r[1..] == rest[1..];
          assert JoinCommas(rest) == rest[0] + "," + JoinCommas(rest[1..]);
          assert s == [s[0]] + s[1..];
        }
      }
    }
  }

  lemma {:induction false} SplitWithoutComma(a: string)
    requires ',' !in a
    ensures SplitAll(a) == [a]
  {
    if a != [] {
      SplitWithoutComma(a[1..]);
      assert a == [a[0]] + a[1..];
    }
  }

  lemma {:induction false} SplitAtComma(a: string, b: string)
    requires ',' !in a
    ensures SplitAll(a + "," + b) == [a] + SplitAll(b)
  {
    if a == [] {
      assert a + "," + b == [','] + b;
      assert (a + "," + b)[1..] == b;
    } else {
      assert (a + "," + b)[1..] == a[1..] + "," + b;
      SplitAtComma(a[1..], b);
      assert a == [a[0]] + a[1..];
    }
  }

  function DropTrailingEmpty(parts: seq<string>): (r: seq<string>)
    ensures |r| <= |parts| && r == parts[..|r|]
    ensures r == [] || r[|r| - 1] != ""
    ensures forall k :: |r| <= k < |parts| ==> parts[k] == ""
  {
    if parts != [] && parts[|parts| - 1] == "" then DropTrailingEmpty(parts[..|parts| - 1]) else parts
  }

  /** String.split(","): the whole string when there is no comma, otherwise
      the pieces with the trailing empty ones removed. */
  function JavaSplit(s: string): (r: seq<string>)
    ensures forall k :: 0 <= k < |r| ==> ',' !in r[k]
  {
    if ',' !in s then [s] else DropTrailingEmpty(SplitAll(s))
  }

  /** The pieces of String.split(","): the whole string when it has no comma;
      otherwise every comma-separated piece, up to a tail of empty pieces that
      is dropped. */
  lemma JavaSplitPieces(s: string)
    ensures ',' !in s ==> JavaSplit(s) == [s]
    ensures ',' in s ==> |JavaSplit(s)| <= |SplitAll(s)| && JavaSplit(s) == SplitAll(s)[..|JavaSplit(s)|]
    ensures ',' in s ==> forall k :: |JavaSplit(s)| <= k < |SplitAll(s)| ==> SplitAll(s)[k] == ""
    ensures ',' in s ==> JavaSplit(s) == [] || JavaSplit(s)[|JavaSplit(s)| - 1] != ""
  {
  }

  /** replaceAll("[(')]", ""). */
  function StripPunctuation(s: string): (r: string)
    ensures '(' !in r && ')' !in r && '\'' !in r
    ensures |r| <= |s|
  {
    if s == [] then ""
    else (if Punctuation(s[0]) then "" else [s[0]]) + StripPunctuation(s[1..])
  }

  /** The characters of the character class [(')]. */
  predicate Punctuation(c: char)
  {
    c == '(' || c == ')' || c == '\''
  }

  /** Stripping is a filter: it works piece by piece ... */
  lemma {:induction false} StripAppend(a: string, b: string)
    ensures StripPunctuation(a + b) == StripPunctuation(a) + StripPunctuation(b)
  {
    if a == [] {
      assert a + b == b;
    } else {
      assert (a + b)[0] == a[0] && (a + b)[1..] == a[1..] + b;
      StripAppend(a[1..], b);
      assert StripPunctuation(a + b)
          == (if Punctuation(a[0]) then "" else [a[0]]) + (StripPunctuation(a[1..]) + StripPunctuation(b));
    }
  }

  /** Stripping keeps every character but the punctuation ... */
  lemma {:induction false} StripMembers(s: string)
    ensures forall c :: c in StripPunctuation(s) <==> c in s && !Punctuation(c)
  {
    if s != [] {
      StripMembers(s[1..]);
      assert s == [s[0]] + s[1..];
    }
  }

  /** ... and drops exactly the punctuation characters. */
  lemma StripOne(c: char)
    ensures StripPunctuation([c]) == if Punctuation(c) then "" else [c]
  {
    assert [c][1..] == "";
  }

  function TrimStart(s: string): (r: string)
    ensures |r| <= |s|
    ensures r == s[|s| - |r|..]
    ensures r == [] || r[0] > ' '
    ensures forall k :: 0 <= k < |s| - |r| ==> s[k] <= ' '
  {
    if s != [] && s[0] <= ' ' then TrimStart(s[1..]) else s
  }

  function TrimEnd(s: string): (r: string)
    ensures |r| <= |s|
    ensures r == s[..|r|]
    ensures r == [] || r[|r| - 1] > ' '
    ensures forall k :: |r| <= k < |s| ==> s[k] <= ' '
  {
    if s != [] && s[|s| - 1] <= ' ' then TrimEnd(s[..|s| - 1]) else s
  }

  /** String.trim: no character up to ' ' at either end. */
  function Trim(s: string): (r: string)
    ensures r == [] || (r[0] > ' ' && r[|r| - 1] > ' ')
    ensures forall c :: c in r ==> c in s
  {
    var t := TrimStart(s);
    var r := TrimEnd(t);
    assert forall c :: c in r ==> c in t;
    assert forall c :: c in t ==> c in s;
    r
  }

  /** Trimming removes exactly a blank prefix and a blank suffix. */
  lemma TrimIsSlice(s: string)
    ensures exists i, j :: 0 <= i <= j <= |s| && Trim(s) == s[i..j]
                          && (forall k :: 0 <= k < i ==> s[k] <= ' ')
                          && (forall k :: j <= k < |s| ==> s[k] <= ' ')
  {
    var t := TrimStart(s);
    var r := TrimEnd(t);
    var i := |s| - |t|;
    var j := i + |r|;
    assert t == s[i..] && r == t[..|r|];
    assert s[i..][..|r|] == s[i..j];
    assert Trim(s) == r == s[i..j];
    assert forall k :: 0 <= k < i ==> s[k] <= ' ';
    forall k | j <= k < |s| ensures s[k] <= ' ' {
      assert s[k] == t[k - i] && |r| <= k - i < |t|;
    }
  }

  /** One piece with its punctuation removed, then trimmed. */
  function CleanPiece(piece: string): string
  {
    Trim(StripPunctuation(piece))
  }

  /** The names read from the first argcount comma-separated pieces. */
  function NamesFrom(split: seq<string>, argcount: int): (r: Result<seq<string>, JavaError>)
    ensures r.Failure? <==> argcount < 0 || argcount > |split|
    ensures argcount < 0 ==> r == Failure(NegativeArraySize)
    ensures 0 <= argcount && r.Failure? ==> r == Failure(IndexOutOfBounds)
    ensures r.Success? ==> |r.value| == argcount
    ensures r.Success? ==> forall k :: 0 <= k < argcount ==> r.value[k] == CleanPiece(split[k])
  {
    if argcount < 0 then Failure(NegativeArraySize)
    else if argcount > |split| then Failure(IndexOutOfBounds)
    else Success(seq(argcount, k requires 0 <= k < argcount => CleanPiece(split[k])))
  }

  /** A name read from a piece has no parenthesis, quote or comma, and no
      blank at either end. */
  lemma CleanName(piece: string)
    requires ',' !in piece
    ensures IsCleanName(CleanPiece(piece))
  {
    StripKeepsOut(piece, ',');
  }

  /** No parenthesis, quote or comma, and no blank at either end. */
  predicate IsCleanName(name: string)
  {
    && '(' !in name && ')' !in name && '\'' !in name && ',' !in name
    && (name == [] || (name[0] > ' ' && name[|name| - 1] > ' '))
  }

  /** Every name read from comma-free pieces is clean. */
  lemma CleanNames(split: seq<string>, argcount: int)
    requires forall k :: 0 <= k < |split| ==> ',' !in split[k]
    ensures NamesFrom(split, argcount).Success? ==>
              forall k :: 0 <= k < |NamesFrom(split, argcount).value| ==> IsCleanName(NamesFrom(split, argcount).value[k])
  {
    forall k | 0 <= k < argcount <= |split| {
      CleanName(split[k]);
    }
  }

  lemma {:induction false} StripKeepsOut(s: string, c: char)
    requires c !in s
    ensures c !in StripPunctuation(s)
  {
    if s != [] {
      assert forall d :: d in s[1..] ==> d in s;
      StripKeepsOut(s[1..], c);
    }
  }

  /** getArgumentNames on the two values the interpreter returns: co_argcount
      cast to Number and co_varnames cast to String. */
  function ArgumentNames(argcount: PyObject, varnames: PyObject): (r: Result<seq<string>, JavaError>)
    ensures argcount.PyNone? ==> r == Failure(NullPointer)
    ensures !argcount.PyNone? && !argcount.PyInt? ==> r == Failure(ClassCast)
    ensures argcount.PyInt? && varnames.PyNone? ==> r == Failure(NullPointer)
    ensures argcount.PyInt? && !varnames.PyNone? && !varnames.PyStr? ==> r == Failure(ClassCast)
    ensures argcount.PyInt? && varnames.PyStr? ==>
              (r.Failure? <==> IntValue(argcount.i) < 0 || IntValue(argcount.i) > |JavaSplit(varnames.s)|)
    ensures argcount.PyInt? && varnames.PyStr? ==> r == NamesFrom(JavaSplit(varnames.s), IntValue(argcount.i))
    ensures r.Success? ==> argcount.PyInt? && varnames.PyStr? && |r.value| == IntValue(argcount.i)
    ensures r.Success? ==> forall k :: 0 <= k < |r.value| ==> IsCleanName(r.value[k])
  {
    if argcount.PyNone? then Failure(NullPointer)
    else if !argcount.PyInt? then Failure(ClassCast)
    else if varnames.PyNone? then Failure(NullPointer)
    else if !varnames.PyStr? then Failure(ClassCast)
    else
      var split := JavaSplit(varnames.s);
      CleanNames(split, IntValue(argcount.i));
      NamesFrom(split, IntValue(argcount.i))
  }

  /** A call statement between a head and a tail: the nine pieces regroup. */
  lemma WrapRegroup(h: string, a: string, b: string, c: string, d: string, e: string, f: string, g: string, t: string)
    ensures h + a + b + c + d + e + f + g + t == h + (a + b + c + d + e + f + g) + t
  {
  }

  lemma AppendAssociative(log0: seq<JepCall>, a: seq<JepCall>, b: seq<JepCall>, c: JepCall, d: seq<JepCall>)
    ensures log0 + a + b + [c] + d == log0 + (a + b + [c] + d)
  {
  }

  // ---------------------------------------------------------------------------
  // The script

  class PythonScript {
    const profile: bool
    /** UUID.randomUUID().toString() of the n-th call. */
    const uuid: nat -> string
    /** jep.getValue: what the interpreter holds under a name after the calls in the log. */
    const getValue: (seq<JepCall>, string) -> PyObject
    var uuidCounter: nat
    var log: seq<JepCall>

    constructor (profile: bool, uuid: nat -> string, getValue: (seq<JepCall>, string) -> PyObject)
      ensures this.profile == profile && this.uuid == uuid && this.getValue == getValue
      ensures uuidCounter == 0 && log == []
    {
      this.profile := profile;
      this.uuid := uuid;
      this.getValue := getValue;
      uuidCounter := 0;
      log := [];
    }

    /** Evaluates each argument under a fresh name, calls the method with
        those names as keyword arguments (under cProfile when profiling) and
        deletes the names again. */
    method InternalExecute(methodName: string, instanceName: Option<string>, args: Args)
      modifies this`log, this`uuidCounter
      ensures uuidCounter == old(uuidCounter) + NonSelfCount(Entries(args))
      ensures log == old(log) + ExecutionCalls(profile, methodName, instanceName, Entries(args), uuid, old(uuidCounter))
    {
      var entries := Entries(args);
      ghost var n0 := uuidCounter;
      ghost var log0 := log;
      var argText, uniqueNames := EvaluateArguments(entries);
      ghost var evaluated := EvaluatedArgs(entries, uuid, n0);
      ghost var prelude: seq<JepCall> := if profile then [Eval("import cProfile")] else [];
      var sb := BuildCall(methodName, instanceName, argText);
      assert sb == CallString(profile, methodName, instanceName, entries, uuid, n0);
      EvalCall(sb);
      ghost var dels := Deletions(uniqueNames);
      CleanupArgs(Some(uniqueNames));
      AppendAssociative(log0, evaluated, prelude, Eval(sb), dels);
    }

    /** Imports cProfile when profiling, then evaluates the call statement. */
    method EvalCall(sb: string)
      modifies this`log
      ensures log == old(log) + (if profile then [Eval("import cProfile")] else []) + [Eval(sb)]
    {
      if profile {
        log := log + [Eval("import cProfile")];
      }
      log := log + [Eval(sb)];
    }

    /** The string buffer of internalExecute around the argument text. */
    method BuildCall(methodName: string, instanceName: Option<string>, argText: string) returns (sb: string)
      ensures sb == CallStatement(profile, methodName, instanceName, argText)
    {
      sb := if profile then "cProfile.run('" else "";
      sb := sb + ResultName + " = ";
      if instanceName.Some? {
        sb := sb + instanceName.value + ".";
      }
      sb := sb + methodName + "(" + argText + ")";
      if profile {
        sb := sb + "', '/tmp/" + methodName + "')";
      }
    }

    /** The argument loop of internalExecute: every entry but "self" is
        evaluated under a fresh unique name and bound to its key. */
    method EvaluateArguments(entries: seq<(string, PyObject)>) returns (argText: string, uniqueNames: seq<string>)
      modifies this`log, this`uuidCounter
      ensures argText == CallArgs(entries, uuid, old(uuidCounter))
      ensures uniqueNames == UniqueNames(entries, uuid, old(uuidCounter))
      ensures log == old(log) + EvaluatedArgs(entries, uuid, old(uuidCounter))
      ensures uuidCounter == old(uuidCounter) + NonSelfCount(entries)
    {
      argText := "";
      uniqueNames := [];
      var i := 0;
      while i < |entries|
        invariant 0 <= i <= |entries|
        invariant argText + CallArgs(entries[i..], uuid, uuidCounter) == CallArgs(entries, uuid, old(uuidCounter))
        invariant uniqueNames + UniqueNames(entries[i..], uuid, uuidCounter) == UniqueNames(entries, uuid, old(uuidCounter))
        invariant log + EvaluatedArgs(entries[i..], uuid, uuidCounter) == old(log) + EvaluatedArgs(entries, uuid, old(uuidCounter))
        invariant uuidCounter + NonSelfCount(entries[i..]) == old(uuidCounter) + NonSelfCount(entries)
      {
        var key := entries[i].0;
        ArgumentStep(entries, uuid, uuidCounter, i);
        if key != "self" {
          var value := entries[i].1;
          var uniqueKey := key + Underscored(uuid(uuidCounter));
          ghost var n := uuidCounter;
          ghost var rest := entries[i + 1..];
          ghost var sep := if i + 1 < |entries| then ", " else "";
          ghost var text := argText;
          assert uniqueKey == UniqueName(key, uuid, n);
          Regroup(argText, Binding(key, uuid, n) + sep, CallArgs(rest, uuid, n + 1));
          Regroup(uniqueNames, [uniqueKey], UniqueNames(rest, uuid, n + 1));
          Regroup(log, [EvaluateArgument(uniqueKey, value)], EvaluatedArgs(rest, uuid, n + 1));
          assert log + [EvaluateArgument(uniqueKey, value)] + EvaluatedArgs(rest, uuid, n + 1)
                 == old(log) + EvaluatedArgs(entries, uuid, old(uuidCounter));
          uuidCounter := uuidCounter + 1;
          uniqueNames := uniqueNames + [uniqueKey];
          log := log + [EvaluateArgument(uniqueKey, value)];
          var binding := key + "=" + uniqueKey;
          assert binding == Binding(key, uuid, n);
          argText := argText + binding;
          if i + 1 < |entries| {
            Regroup(text, binding, ", ");
            argText := argText + ", ";
          } else {
            assert binding + sep == binding;
          }
        }
        i := i + 1;
      }
      assert entries[i..] == [];
    }

    /** Deletes each name but "self" from the interpreter. */
    method CleanupArgs(args: Option<seq<string>>)
      modifies this`log
      ensures log == old(log) + Deletions(if args.None? then [] else args.value)
    {
      if args.Some? && |args.value| > 0 {
        var names := args.value;
        var i := 0;
        while i < |names|
          invariant 0 <= i <= |names|
          invariant log + Deletions(names[i..]) == old(log) + Deletions(names)
        {
          DeletionStep(names, i);
          if names[i] != "self" {
            Regroup(log, [Eval("del " + names[i])], Deletions(names[i + 1..]));
            log := log + [Eval("del " + names[i])];
          }
          i := i + 1;
        }
      }
    }

    /** The value of __result in the interpreter. */
    function ExecutionResult(): (r: PyObject)
      reads this
      ensures r == getValue(log, ResultName)
    {
      getValue(log, ResultName)
    }

    /** Runs the method, reads __result, then resets it to None. */
    method Execute(methodName: string, instanceName: Option<string>, args: Args) returns (obj: PyObject)
      modifies this`log, this`uuidCounter
      ensures uuidCounter == old(uuidCounter) + NonSelfCount(Entries(args))
      ensures obj == getValue(old(log) + ExecutionCalls(profile, methodName, instanceName, Entries(args), uuid, old(uuidCounter)),
                              ResultName)
      ensures log == old(log) + ExecutionCalls(profile, methodName, instanceName, Entries(args), uuid, old(uuidCounter))
                     + [Eval(ResultName + " = None")]
    {
      InternalExecute(methodName, instanceName, args);
      obj := ExecutionResult();
      log := log + [Eval(ResultName + " = None")];
    }

    /** execute(methodName, args): a module-level function, no instance. */
    method ExecuteFunction(methodName: string, args: Args) returns (obj: PyObject)
      modifies this`log, this`uuidCounter
      ensures uuidCounter == old(uuidCounter) + NonSelfCount(Entries(args))
      ensures obj == getValue(old(log) + ExecutionCalls(profile, methodName, None, Entries(args), uuid, old(uuidCounter)),
                              ResultName)
      ensures log == old(log) + ExecutionCalls(profile, methodName, None, Entries(args), uuid, old(uuidCounter))
                     + [Eval(ResultName + " = None")]
    {
      obj := Execute(methodName, None, args);
    }

    /** Reads co_argcount and co_varnames of the method and returns the first
        argcount names. */
    method GetArgumentNames(methodName: string, instanceName: Option<string>) returns (r: Result<seq<string>, JavaError>)
      ensures var start := if instanceName.Some? then instanceName.value + "." else "";
              r == ArgumentNames(getValue(log, start + methodName + ".func_code.co_argcount"),
                                 getValue(log, start + methodName + ".func_code.co_varnames"))
    {
      var instStart := "";
      if instanceName.Some? {
        instStart := instanceName.value + ".";
      }
      var countObj := getValue(log, instStart + methodName + ".func_code.co_argcount");
      if countObj.PyNone? {
        return Failure(NullPointer);
      }
      if !countObj.PyInt? {
        return Failure(ClassCast);
      }
      var argcount := IntValue(countObj.i);
      var argsObj := getValue(log, instStart + methodName + ".func_code.co_varnames");
      if argsObj.PyNone? {
        return Failure(NullPointer);
      }
      if !argsObj.PyStr? {
        return Failure(ClassCast);
      }
      var split := JavaSplit(argsObj.s);
      r := ReadNames(split, argcount);
    }

    /** The array of names filled from the pieces, one per argument. */
    method ReadNames(split: seq<string>, argcount: int) returns (r: Result<seq<string>, JavaError>)
      ensures r == NamesFrom(split, argcount)
    {
      if argcount < 0 {
        return Failure(NegativeArraySize);
      }
      var arguments := new string[argcount];
      var i := 0;
      while i < argcount
        invariant 0 <= i <= argcount && i <= |split|
        invariant arguments[..i] == seq(i, k requires 0 <= k < i => CleanPiece(split[k]))
      {
        if i >= |split| {
          return Failure(IndexOutOfBounds);
        }
        arguments[i] := CleanPiece(split[i]);
        i := i + 1;
      }
      assert arguments[..] == arguments[..argcount];
      assert NamesFrom(split, argcount) == Success(seq(argcount, k requires 0 <= k < argcount => CleanPiece(split[k])));
      return Success(arguments[..]);
    }

    /** Sets each constructor argument under its own name and evaluates
        "instanceName = className(k=k, ...)". */
    method InstantiatePythonClass(instanceName: string, className: string, initArgs: Args)
      modifies this`log
      ensures log == old(log) + Sets(Entries(initArgs))
                     + [Eval(instanceName + " = " + className + "(" + InitArgs(Entries(initArgs)) + ")")]
    {
      var sb := instanceName + " = " + className + "(";
      var head := sb;
      if initArgs.Some? {
        var entries := initArgs.value;
        var i := 0;
        while i < |entries|
          invariant 0 <= i <= |entries|
          invariant sb + InitArgs(entries[i..]) == head + InitArgs(entries)
          invariant log == old(log) + Sets(entries[..i])
        {
          var key := entries[i].0;
          assert entries[i..][1..] == entries[i + 1..];
          assert Sets(entries[..i + 1]) == Sets(entries[..i]) + [Set(key, entries[i].1)];
          log := log + [Set(key, entries[i].1)];
          sb := sb + key + "=" + key;
          if i + 1 < |entries| {
            sb := sb + ", ";
          }
          i := i + 1;
        }
        assert entries[..i] == entries;
        assert entries[i..] == [];
      }
      assert sb == head + InitArgs(Entries(initArgs));
      sb := sb + ")";
      log := log + [Eval(sb)];
    }
  }
}
