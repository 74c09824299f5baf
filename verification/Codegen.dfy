// Program generation: which directive a task names, the generated program, what the program's
// TASK literal denotes to Python, and how large the program can get.

module Codegen {
  import opened Basics
  import Utf8
  import opened JsonString
  import opened PythonLiteral

  const DIRECTIVES: seq<string> := ["normal", "fail", "hang", "oom", "net", "fork", "bigout"]

  /** The normal program around the embedded literal. */
  const HEAD := "import json, hashlib\nTASK = "
  const TAIL := "\n" + REPORT
  const REPORT :=
    "result = {\n    \"task_len\": len(TASK),\n    \"word_count\": len(TASK.split()),\n"
    + "    \"sha256\": hashlib.sha256(TASK.encode()).hexdigest(),\n}\nprint(json.dumps(result))\n"

  /** A generated program: the normal template with its literal, or one of the fixed programs. */
  datatype Program = Embedding(text: string) | Fixed(directive: string)

  /** Lengths of the fixed programs, which are ASCII. */
  const FIXED_LENGTH: map<string, nat> :=
    map["fail" := 69, "hang" := 76, "oom" := 128, "net" := 470, "fork" := 360, "bigout" := 160]

  const LONGEST_FIXED := 470

  /** Whether a lower-cased task names a directive. */
  predicate Names(low: string, d: string) {
    Contains(low, "[" + d + "]") || Contains(low, "directive:" + d)
  }

  function FirstNamed(low: string, ds: seq<string>): string {
    if ds == [] then "normal"
    else if ds[0] != "normal" && Names(low, ds[0]) then ds[0]
    else FirstNamed(low, ds[1..])
  }

  /** parse_directive, given the lower-cased task. */
  function ParseDirective(low: string): string {
    FirstNamed(low, DIRECTIVES)
  }

  /** The k-th directive of the list is d, and the task names none of those before it. */
  predicate IsFirst(low: string, ds: seq<string>, k: nat, d: string)
    requires k < |ds|
  {
    ds[k] == d && forall j :: 0 <= j < k ==> ds[j] == "normal" || !Names(low, ds[j])
  }

  /**
   * The parsed directive is the first listed one the task names; it is "normal" exactly when
   * the task names none of the others.
   */
  lemma {:induction false} FirstNamedIsFirst(low: string, ds: seq<string>)
    ensures var d := FirstNamed(low, ds);
            if d == "normal" then forall e :: e in ds && e != "normal" ==> !Names(low, e)
            else Names(low, d) && exists k :: 0 <= k < |ds| && IsFirst(low, ds, k, d)
  {
    if ds != [] && (ds[0] == "normal" || !Names(low, ds[0])) {
      FirstNamedIsFirst(low, ds[1..]);
      var d := FirstNamed(low, ds);
      if d != "normal" {
        var k :| 0 <= k < |ds[1..]| && IsFirst(low, ds[1..], k, d);
        forall j | 0 <= j < k + 1 ensures ds[j] == "normal" || !Names(low, ds[j]) {
          assert j > 0 ==> ds[j] == ds[1..][j - 1];
        }
        assert IsFirst(low, ds, k + 1, d);
      }
    } else if ds != [] {
      assert IsFirst(low, ds, 0, ds[0]);
    }
  }

  datatype Generated = UnknownDirective | Generated(program: Program)

  /** generate_program; the lookup of an unlisted directive fails. */
  function GenerateProgram(directive: string, task: string): Generated {
    if directive == "normal" then Generated(Embedding(HEAD + Quote(task) + TAIL))
    else if directive in FIXED_LENGTH then Generated(Fixed(directive))
    else UnknownDirective
  }

  /** len(code), which run_sandbox compares with max_code_bytes. */
  function Size(p: Program): nat
    requires p.Fixed? ==> p.directive in FIXED_LENGTH
  {
    match p
    case Embedding(text) => |text|
    case Fixed(d) => FIXED_LENGTH[d]
  }

  /** Whatever the task, the parsed directive has a program. */
  lemma EveryTaskGenerates(low: string, task: string)
    ensures GenerateProgram(ParseDirective(low), task).Generated?
  {
    FirstNamedIsFirst(low, DIRECTIVES);
    var d := ParseDirective(low);
    assert d == "normal" || d in DIRECTIVES;
  }

  /** Somewhere in the lower-cased task stands the directive in brackets, or after "directive:". */
  predicate Mentions(low: string, d: string) {
    exists i :: 0 <= i <= |low| && ("[" + d + "]" <= low[i..] || "directive:" + d <= low[i..])
  }

  lemma NamesIff(low: string, d: string)
    ensures Names(low, d) <==> Mentions(low, d)
  {
    ContainsIff(low, "[" + d + "]");
    ContainsIff(low, "directive:" + d);
  }

  /** d is the first directive the text mentions; the first of the list, "normal", is not looked for. */
  predicate FirstMentioned(low: string, k: nat, d: string) {
    1 <= k < 7 && d == DIRECTIVES[k] && Mentions(low, d) && forall j :: 1 <= j < k ==> !Mentions(low, DIRECTIVES[j])
  }

  predicate MentionsNone(low: string) {
    forall j :: 1 <= j < 7 ==> !Mentions(low, DIRECTIVES[j])
  }

  lemma OthersAreNotNormal(j: nat)
    requires 1 <= j < 7
    ensures DIRECTIVES[j] != "normal" && DIRECTIVES[j] in DIRECTIVES
  {
    assert "normal"[0] == 'n' && "normal"[1] == 'o' && "net"[1] == 'e';
  }

  /** A task is parsed as the first directive it mentions, and as normal exactly if it mentions none. */
  lemma DirectiveIs(low: string)
    ensures var d := ParseDirective(low);
            if d == "normal" then MentionsNone(low) else exists k :: FirstMentioned(low, k, d)
  {
    FirstNamedIsFirst(low, DIRECTIVES);
    var d := ParseDirective(low);
    if d == "normal" {
      forall j | 1 <= j < 7 ensures !Mentions(low, DIRECTIVES[j]) {
        OthersAreNotNormal(j);
        NamesIff(low, DIRECTIVES[j]);
      }
    } else {
      var k :| 0 <= k < |DIRECTIVES| && IsFirst(low, DIRECTIVES, k, d);
      NamesIff(low, d);
      forall j | 1 <= j < k ensures !Mentions(low, DIRECTIVES[j]) {
        OthersAreNotNormal(j);
        NamesIff(low, DIRECTIVES[j]);
      }
      assert FirstMentioned(low, k, d);
    }
  }

  /** The generated program is the fixed one of that directive, or the normal one around the task's literal. */
  lemma ProgramIs(low: string, task: string)
    ensures GenerateProgram(ParseDirective(low), task).Generated?
    ensures var p := GenerateProgram(ParseDirective(low), task).program;
            match p
            case Fixed(d) => exists k :: FirstMentioned(low, k, d)
            case Embedding(text) => MentionsNone(low) && text == HEAD + Quote(task) + TAIL
  {
    DirectiveIs(low);
    EveryTaskGenerates(low, task);
  }

  /**
   * For every task, Python reads the TASK literal of the generated program exactly to its
   * closing quote and obtains the UTF-16 code units of the task, one code point each.
   */
  lemma {:induction false} TaskLiteralReadsBack(task: string)
    ensures var text := GenerateProgram("normal", task).program.text;
            text[..|HEAD|] == HEAD && ReadLiteral(text[|HEAD|..]) == Read(Utf16(task), TAIL)
  {
    Cut(HEAD, Quote(task), TAIL);
    assert TAIL[0] == '\n';
    LiteralReadsBack(task, TAIL);
  }

  lemma Cut(a: string, b: string, c: string)
    ensures (a + b + c)[..|a|] == a && (a + b + c)[|a|..] == b + c
  {
  }

  lemma LiteralReadsBack(task: string, rest: string)
    requires rest != [] && rest[0] != '"'
    ensures ReadLiteral(Quote(task) + rest) == Read(Utf16(task), rest)
  {
    var at := Quote(task) + rest;
    assert at[1..] == Escape(task) + "\"" + rest;
    ReadEscaped(task, rest);
    if task == [] {
      assert at[2] == rest[0];
    } else {
      assert at[1] == EscapeChar(task[0])[0];
    }
  }

  /**
   * So the program's TASK is the submitted task exactly when the task has no character above
   * U+FFFF: Python does not join the two escapes of such a character.
   */
  lemma {:induction false} TaskLiteralIsTask(task: string)
    ensures var r := ReadLiteral(GenerateProgram("normal", task).program.text[|HEAD|..]);
            r.Read? && (r.codes == CodePoints(task) <==> forall i :: 0 <= i < |task| ==> task[i] as int <= 0xFFFF)
  {
    TaskLiteralReadsBack(task);
    Utf16IsCodePoints(task);
  }

  /** What str.encode() makes of a Python string, given as code points. */
  datatype Encoding = EncodeError | Encoded(bytes: seq<Utf8.byte>)

  function EncodeStrict(codes: seq<int>): Encoding {
    if codes == [] then Encoded([])
    else if !(0 <= codes[0] < 0xD800 || 0xE000 <= codes[0] < 0x110000) then EncodeError
    else match EncodeStrict(codes[1..])
         case EncodeError => EncodeError
         case Encoded(rest) => Encoded(Utf8.EncodeChar(codes[0] as char) + rest)
  }

  lemma {:induction false} EncodeUnits(task: string)
    ensures EncodeStrict(Utf16(task)) ==
      if forall i :: 0 <= i < |task| ==> task[i] as int <= 0xFFFF then Encoded(Utf8.Encode(task)) else EncodeError
  {
    if task != [] {
      var us, rest := Units(task[0]), task[1..];
      EncodeUnits(rest);
      if task[0] as int <= 0xFFFF {
        assert Utf16(task)[1..] == Utf16(rest);
        assert (forall i :: 0 <= i < |rest| ==> rest[i] as int <= 0xFFFF) ==
            forall i :: 0 <= i < |task| ==> task[i] as int <= 0xFFFF by {
          assert forall i :: 0 <= i < |rest| ==> rest[i] == task[i + 1];
          assert forall i :: 1 <= i < |task| ==> task[i] == rest[i - 1];
        }
      } else {
        assert Utf16(task)[0] == us[0];
      }
    }
  }

  /**
   * The normal program hashes TASK.encode().  That gives the submitted task's bytes when no
   * character is above U+FFFF; otherwise it raises.
   */
  lemma {:induction false} TaskEncodesIff(task: string)
    ensures var r := ReadLiteral(GenerateProgram("normal", task).program.text[|HEAD|..]);
            r.Read? && EncodeStrict(r.codes) ==
              if forall i :: 0 <= i < |task| ==> task[i] as int <= 0xFFFF then Encoded(Utf8.Encode(task)) else EncodeError
  {
    TaskLiteralReadsBack(task);
    EncodeUnits(task);
  }

  lemma {:induction false} EscapeSize(s: string)
    ensures |Escape(s)| <= 6 * |Utf8.Encode(s)|
  {
    if s != [] {
      EscapeSize(s[1..]);
      assert |EscapeChar(s[0])| <= 6 * |Utf8.EncodeChar(s[0])|;
    }
  }

  /** A program is at most six times the task's UTF-8 length plus a constant. */
  lemma ProgramSize(directive: string, task: string)
    requires GenerateProgram(directive, task).Generated?
    ensures Size(GenerateProgram(directive, task).program) <= 6 * |Utf8.Encode(task)| + LONGEST_FIXED
    ensures directive == "normal" ==>
        Size(GenerateProgram(directive, task).program) <= 6 * |Utf8.Encode(task)| + |HEAD| + |TAIL| + 2
  {
    EscapeSize(task);
    assert |HEAD| == 28 && |TAIL| == 161;
  }

  const MAX_TASK_BYTES := 8192
  const MAX_CODE_BYTES := 262144

  /**
   * The program of an accepted task is within the code ceiling, whatever directive it names, when
   * the ceiling leaves room for six characters a byte; the default ceilings do.
   */
  lemma AcceptedTaskFits(low: string, task: string, maxTaskBytes: int, maxCodeBytes: int)
    requires |Utf8.Encode(task)| <= maxTaskBytes
    requires 6 * maxTaskBytes + LONGEST_FIXED <= maxCodeBytes
    ensures var g := GenerateProgram(ParseDirective(low), task);
            g.Generated? && Size(g.program) <= maxCodeBytes
    ensures 6 * MAX_TASK_BYTES + LONGEST_FIXED <= MAX_CODE_BYTES
  {
    EveryTaskGenerates(low, task);
    ProgramSize(ParseDirective(low), task);
  }

  /** A task of control characters: one UTF-8 byte each, six characters each once escaped. */
  function WorstTask(n: nat): (s: string)
    ensures |s| == n
  {
    if n == 0 then [] else [1 as char] + WorstTask(n - 1)
  }

  lemma {:induction false} WorstTaskSize(n: nat)
    ensures |Utf8.Encode(WorstTask(n))| == n && |Escape(WorstTask(n))| == 6 * n
  {
    if n > 0 {
      WorstTaskSize(n - 1);
      assert WorstTask(n)[1..] == WorstTask(n - 1);
    }
  }

  /** The factor six is reached at every length, so no smaller code ceiling would do. */
  lemma SizeBoundIsReached(n: nat)
    ensures |Utf8.Encode(WorstTask(n))| == n
    ensures Size(GenerateProgram("normal", WorstTask(n)).program) == 6 * n + |HEAD| + |TAIL| + 2
  {
    WorstTaskSize(n);
  }
}
