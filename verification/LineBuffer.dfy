/** The growing buffer that the command line is written into. */
module LineBuffer {
  import opened CommandLine

  class LineBuffer {
    var dest: array?<char>
    var length: nat

    ghost function Repr(): set<object>
      reads this
    {
      if dest == null then {this} else {this, dest}
    }

    /** There is always room for the terminator, and it is there. */
    ghost predicate Valid()
      reads this, Repr()
    {
      if dest == null then length == 0 else length < dest.Length && dest[length] == '\0'
    }

    ghost function Contents(): string
      requires Valid()
      reads this, Repr()
    {
      if dest == null then "" else dest[..length]
    }

    constructor ()
      ensures Valid() && Contents() == "" && fresh(Repr())
    {
      dest := null;
      length := 0;
    }

    /** `append_char`: the capacity doubles when character and terminator do not fit. */
    method AppendChar(c: char)
      requires Valid()
      modifies Repr()
      ensures Valid() && Contents() == old(Contents()) + [c] && fresh(Repr() - old(Repr()))
    {
      var capacity := if dest == null then 0 else dest.Length;
      if length + 2 > capacity {
        var next := new char[if capacity != 0 then capacity * 2 else 256];
        var i := 0;
        while i < length
          invariant dest == old(dest) && length == old(length)
          invariant 0 <= i <= length && (length > 0 ==> dest != null && length < dest.Length <= next.Length)
          invariant forall k :: 0 <= k < i ==> next[k] == dest[k]
          invariant dest != null ==> dest[..length] == old(Contents())
        {
          next[i] := dest[i];
          i := i + 1;
        }
        assert next[..length] == old(Contents());
        dest := next;
      }
      dest[length] := c;
      length := length + 1;
      dest[length] := '\0';
      assert dest[..length] == dest[..length - 1] + [c];
    }

    method AppendRepeat(c: char, n: nat)
      requires Valid()
      modifies Repr()
      ensures Valid() && Contents() == old(Contents()) + Repeat(c, n) && fresh(Repr() - old(Repr()))
    {
      var i := 0;
      while i < n
        invariant 0 <= i <= n && Valid() && Contents() == old(Contents()) + Repeat(c, i) && fresh(Repr() - old(Repr()))
      {
        AppendChar(c);
        i := i + 1;
        assert Repeat(c, i) == Repeat(c, i - 1) + [c];
      }
    }

    /** `n` backslashes and a character that is no backslash: twice as many and one more before a quote. */
    method AppendEscaped(n: nat, c: char)
      requires Valid()
      modifies Repr()
      ensures Valid() && fresh(Repr() - old(Repr()))
      ensures Contents() == old(Contents()) + (Repeat('\\', if c == '"' then 2 * n + 1 else n) + [c])
    {
      hide Repeat;
      ghost var was := Contents();
      if c == '"' {
        AppendRepeat('\\', n * 2);
        AppendChar('\\');
        AppendChar('"');
        OddRepeat(n);
        assert was + Repeat('\\', n * 2) + ['\\'] + ['"'] == was + (Repeat('\\', n * 2) + ['\\'] + ['"']);
      } else {
        AppendRepeat('\\', n);
        AppendChar(c);
        Join(was, Repeat('\\', n), [c]);
      }
    }

    /** The loop of `append_arg`. */
    method AppendQuoted(arg: string)
      requires Valid()
      modifies Repr()
      ensures Valid() && fresh(Repr() - old(Repr())) && Contents() == old(Contents()) + QuotedFrom(arg, 0)
    {
      hide Repeat, QuotedFrom;
      var p := 0;
      while true
        invariant 0 <= p <= |arg| && Valid() && fresh(Repr() - old(Repr()))
        invariant Contents() + QuotedFrom(arg, p) == old(Contents()) + QuotedFrom(arg, 0)
        decreases |arg| - p
      {
        var slashes := CountSlashes(arg, p);
        QuotedStep(arg, p, slashes);
        ghost var was := Contents();
        p := p + slashes;
        if p == |arg| {
          AppendRepeat('\\', slashes * 2);
          break;
        }
        AppendEscaped(slashes, arg[p]);
        p := p + 1;
        Join(was, Repeat('\\', if arg[p - 1] == '"' then 2 * slashes + 1 else slashes) + [arg[p - 1]], QuotedFrom(arg, p));
      }
    }

    /** `append_arg` */
    method AppendArg(arg: string)
      requires Valid()
      modifies Repr()
      ensures Valid() && fresh(Repr() - old(Repr()))
      ensures Contents() == (if old(Contents()) == "" then "" else old(Contents()) + " ") + Quoted(arg)
    {
      hide Repeat, QuotedFrom;
      ghost var was := Contents();
      if length != 0 {
        AppendChar(' ');
      }
      ghost var start := Contents();
      AppendChar('"');
      AppendQuoted(arg);
      AppendChar('"');
      assert start + ['"'] + QuotedFrom(arg, 0) + ['"'] == start + Quoted(arg);
    }
  }

  lemma OddRepeat(n: nat)
    ensures Repeat('\\', n * 2) + ['\\'] == Repeat('\\', 2 * n + 1)
  {
  }

  method CountSlashes(s: string, i: nat) returns (n: nat)
    requires i <= |s|
    ensures n == SlashRun(s, i)
  {
    n := 0;
    while i + n < |s| && s[i + n] == '\\'
      invariant i + n <= |s| && SlashRun(s, i) == n + SlashRun(s, i + n)
    {
      n := n + 1;
    }
  }

  /** `command_line` of arguments that are valid text. */
  method BuildLine(args: seq<string>) returns (line: string)
    ensures line == Line(args, |args|)
  {
    hide Quoted;
    var buffer := new LineBuffer();
    var i := 0;
    while i < |args|
      invariant 0 <= i <= |args| && buffer.Valid() && fresh(buffer.Repr())
      invariant buffer.Contents() == Line(args, i)
    {
      LineEmpty(args, i);
      buffer.AppendArg(args[i]);
      i := i + 1;
    }
    line := if buffer.dest == null then "" else buffer.dest[..buffer.length];
  }

  /** Only no arguments make an empty line. */
  lemma LineEmpty(args: seq<string>, n: nat)
    requires n <= |args|
    ensures Line(args, n) == "" <==> n == 0
  {
  }
}
