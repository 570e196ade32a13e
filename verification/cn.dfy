/**
 * `cn(...classes)` (`src/shared/utils/cn.ts`): keeps the truthy class names
 * and joins them with single spaces.
 */
module ClassNames {
  import opened Strings
  import opened Seqs

  /** An argument of `cn`: a string, `undefined`, `null` or `false`. */
  datatype ClassArg = Str(text: string) | Undefined | Null | False

  /** `Boolean(arg)`: only a non-empty string is truthy. */
  predicate Truthy(a: ClassArg) {
    a.Str? && a.text != ""
  }

  /** `classes.filter(Boolean)`: the truthy arguments' texts, in argument order. */
  function Kept(args: seq<ClassArg>): (kept: seq<string>)
    ensures |kept| <= |args|
    ensures forall i :: 0 <= i < |kept| ==> kept[i] != ""
    ensures |kept| == 0 <==> forall i :: 0 <= i < |args| ==> !Truthy(args[i])
    ensures forall i :: 0 <= i < |kept| ==> Str(kept[i]) in args
    ensures forall i :: 0 <= i < |args| && Truthy(args[i]) ==> args[i].text in kept
  {
    if |args| == 0 then []
    else
      var rest := Kept(args[1..]);
      assert forall i :: 1 <= i < |args| ==> args[1..][i - 1] == args[i];
      (if Truthy(args[0]) then [args[0].text] else []) + rest
  }

  lemma {:induction false} KeptAppend(a: seq<ClassArg>, b: seq<ClassArg>)
    ensures Kept(a + b) == Kept(a) + Kept(b)
  {
    if |a| > 0 {
      var head := if Truthy(a[0]) then [a[0].text] else [];
      assert Kept(a + b) == head + Kept(a[1..] + b) by {
        assert (a + b)[0] == a[0] && (a + b)[1..] == a[1..] + b;
      }
      KeptAppend(a[1..], b);
      AppendAssoc(head, Kept(a[1..]), Kept(b));
    } else {
      assert a + b == b;
    }
  }

  /**
   * The kept names keep the arguments' order: of two truthy arguments, the
   * earlier one's text is kept at an earlier position.
   */
  lemma KeptInOrder(args: seq<ClassArg>, i: nat, j: nat)
    requires i < j < |args| && Truthy(args[i]) && Truthy(args[j])
    ensures exists p, q :: 0 <= p < q < |Kept(args)| && Kept(args)[p] == args[i].text && Kept(args)[q] == args[j].text
  {
    var front, back := args[..j], args[j..];
    assert args == front + back;
    KeptAppend(front, back);
    assert front[i] == args[i];
    var p :| 0 <= p < |Kept(front)| && Kept(front)[p] == args[i].text;
    assert back[0] == args[j] && back[1..] == args[j + 1..];
    assert Kept(back)[0] == args[j].text;
    var q := |Kept(front)|;
    assert Kept(args)[p] == args[i].text && Kept(args)[q] == args[j].text;
  }

  /** `cn(...classes)`. */
  function Cn(args: seq<ClassArg>): (r: string)
    ensures r == "" <==> forall i :: 0 <= i < |args| ==> !Truthy(args[i])
    ensures |args| == 1 && Truthy(args[0]) ==> r == args[0].text
  {
    Join(Kept(args), " ")
  }

  /**
   * When no class name contains a space, splitting the result at spaces gives
   * back exactly the truthy arguments, in order.
   */
  lemma CnSplitsBack(args: seq<ClassArg>)
    requires exists i :: 0 <= i < |args| && Truthy(args[i])
    requires forall i :: 0 <= i < |args| && args[i].Str? ==> ' ' !in args[i].text
    ensures Split(Cn(args), ' ') == Kept(args)
  {
    var kept := Kept(args);
    forall i | 0 <= i < |kept|
      ensures ' ' !in kept[i]
    {
      assert Str(kept[i]) in args;
    }
    SplitJoin(kept, ' ');
  }

  /** Two argument lists combine with one space between their results, when both have any. */
  lemma CnAppend(a: seq<ClassArg>, b: seq<ClassArg>)
    ensures Cn(a + b) == if Cn(a) == "" then Cn(b) else if Cn(b) == "" then Cn(a) else Cn(a) + " " + Cn(b)
  {
    KeptAppend(a, b);
    if |Kept(a)| > 0 && |Kept(b)| > 0 {
      JoinAppend(Kept(a), Kept(b), " ");
    } else if |Kept(a)| == 0 {
      assert Kept(a) + Kept(b) == Kept(b);
    } else {
      assert Kept(a) + Kept(b) == Kept(a);
    }
  }

  /** Feeding the result back in as a single argument changes nothing. */
  lemma CnIdempotent(args: seq<ClassArg>)
    ensures Cn([Str(Cn(args))]) == Cn(args)
  {
  }
}
