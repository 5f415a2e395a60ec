/** The action names `run_action` accepts: `str(action or '').strip().lower()`
    and the branch each normalized name selects. */
module ActionNames {
  import opened PyBase

  /** The characters Python's `str.strip()` removes. */
  predicate IsSpace(c: char)
  {
    c == ' ' || ('\t' <= c <= '\r') || ('\U{1C}' <= c <= '\U{1F}') || c == '\U{85}' || c == '\U{A0}'
    || c == '\U{1680}' || ('\U{2000}' <= c <= '\U{200A}') || c == '\U{2028}' || c == '\U{2029}'
    || c == '\U{202F}' || c == '\U{205F}' || c == '\U{3000}'
  }

  predicate AllSpace(s: string)
  {
    forall i | 0 <= i < |s| :: IsSpace(s[i])
  }

  function StripLeft(s: string): (t: string)
    ensures |t| <= |s| && t == s[|s| - |t|..]
    ensures |t| > 0 ==> !IsSpace(t[0])
    ensures forall i | 0 <= i < |s| - |t| :: IsSpace(s[i])
  {
    if |s| > 0 && IsSpace(s[0]) then StripLeft(s[1..]) else s
  }

  function StripRight(s: string): (t: string)
    ensures |t| <= |s| && t == s[..|t|]
    ensures |t| > 0 ==> !IsSpace(t[|t| - 1])
    ensures forall i | |t| <= i < |s| :: IsSpace(s[i])
  {
    if |s| > 0 && IsSpace(s[|s| - 1]) then StripRight(s[..|s| - 1]) else s
  }

  /** `str.strip()` */
  function Strip(s: string): (t: string)
    ensures |t| > 0 ==> !IsSpace(t[0]) && !IsSpace(t[|t| - 1])
  {
    StripRight(StripLeft(s))
  }

  function LowerChar(c: char): (d: char)
    ensures !('A' <= d <= 'Z')
    ensures IsSpace(d) == IsSpace(c)
  {
    if 'A' <= c <= 'Z' then (c as int + 32) as char else c
  }

  /** `str.lower()` on the ASCII letters. */
  function Lower(s: string): (t: string)
    ensures |t| == |s| && forall i | 0 <= i < |s| :: t[i] == LowerChar(s[i])
  {
    seq(|s|, i requires 0 <= i < |s| => LowerChar(s[i]))
  }

  /** `str(action or '').strip().lower()` */
  function Normalize(action: Option<string>): (name: string)
    ensures |name| > 0 ==> !IsSpace(name[0]) && !IsSpace(name[|name| - 1])
    ensures forall i | 0 <= i < |name| :: !('A' <= name[i] <= 'Z')
  {
    Lower(Strip(if action.Some? then action.value else ""))
  }

  /** A string with no blank at either end is its own strip. */
  lemma StripKeeps(s: string)
    requires |s| > 0 ==> !IsSpace(s[0]) && !IsSpace(s[|s| - 1])
    ensures Strip(s) == s
  {
    assert StripLeft(s) == s;
  }

  /** A string without capitals is its own lower-case form. */
  lemma LowerKeeps(s: string)
    requires forall i | 0 <= i < |s| :: !('A' <= s[i] <= 'Z')
    ensures Lower(s) == s
  {
  }

  /** Normalizing a normalized name changes nothing. */
  lemma NormalizeIdempotent(action: Option<string>)
    ensures Normalize(Some(Normalize(action))) == Normalize(action)
  {
    var name := Normalize(action);
    StripKeeps(name);
    LowerKeeps(name);
  }

  /** Blanks in front reach neither side of StripLeft's result. */
  lemma {:induction false} StripLeftPadded(pre: string, s: string)
    requires AllSpace(pre)
    ensures StripLeft(pre + s) == StripLeft(s)
  {
    if |pre| > 0 {
      assert (pre + s)[1..] == pre[1..] + s;
      assert (pre + s)[0] == pre[0];
      StripLeftPadded(pre[1..], s);
    } else {
      assert pre + s == s;
    }
  }

  lemma {:induction false} StripRightPadded(s: string, post: string)
    requires AllSpace(post)
    ensures StripRight(s + post) == StripRight(s)
  {
    if |post| > 0 {
      assert (s + post)[..|s + post| - 1] == s + post[..|post| - 1];
      assert (s + post)[|s + post| - 1] == post[|post| - 1];
      StripRightPadded(s, post[..|post| - 1]);
    } else {
      assert s + post == s;
    }
  }

  /** A blank string strips to nothing from either side. */
  lemma BlankStrips(s: string)
    requires AllSpace(s)
    ensures StripLeft(s) == [] && StripRight(s) == []
  {
  }

  /** Blanks after s survive its front strip and are then cut from the back. */
  lemma {:induction false} StripLeftTail(s: string, post: string)
    requires AllSpace(post)
    ensures StripRight(StripLeft(s + post)) == StripRight(StripLeft(s))
  {
    if |s| == 0 {
      assert s + post == post;
      BlankStrips(post);
      BlankStrips(s);
    } else if IsSpace(s[0]) {
      assert (s + post)[1..] == s[1..] + post;
      assert (s + post)[0] == s[0];
      StripLeftTail(s[1..], post);
    } else {
      assert (s + post)[0] == s[0];
      StripRightPadded(s, post);
    }
  }

  /** Blanks around a string do not reach its strip. */
  lemma StripPadded(pre: string, s: string, post: string)
    requires AllSpace(pre) && AllSpace(post)
    ensures Strip(pre + s + post) == Strip(s)
  {
    assert pre + s + post == pre + (s + post);
    StripLeftPadded(pre, s + post);
    StripLeftTail(s, post);
  }

  /** A string strips to nothing exactly when it is blank. */
  lemma StripEmpty(s: string)
    ensures Strip(s) == [] <==> AllSpace(s)
  {
    if AllSpace(s) {
      BlankStrips(s);
      BlankStrips(StripLeft(s));
    }
    if Strip(s) == [] {
      assert |StripLeft(s)| == 0;
    }
  }

  /** Blanks around the action name do not matter. */
  lemma NormalizePadded(pre: string, s: string, post: string)
    requires AllSpace(pre) && AllSpace(post)
    ensures Normalize(Some(pre + s + post)) == Normalize(Some(s))
  {
    StripPadded(pre, s, post);
  }

  /** Capitals do not matter either. */
  lemma NormalizeCase(s: string)
    ensures Normalize(Some(Lower(s))) == Normalize(Some(s))
  {
    StripLeftLower(s);
    StripRightLower(StripLeft(s));
    LowerTwice(Strip(s));
  }

  lemma LowerTwice(s: string)
    ensures Lower(Lower(s)) == Lower(s)
  {
  }

  lemma {:induction false} StripLeftLower(s: string)
    ensures StripLeft(Lower(s)) == Lower(StripLeft(s))
  {
    if |s| == 0 {
      assert Lower(s) == [];
    } else {
      assert Lower(s)[0] == LowerChar(s[0]);
      if IsSpace(s[0]) {
        assert Lower(s)[1..] == Lower(s[1..]);
        StripLeftLower(s[1..]);
        assert StripLeft(Lower(s)) == StripLeft(Lower(s)[1..]);
      } else {
        assert StripLeft(s) == s;
        assert StripLeft(Lower(s)) == Lower(s);
      }
    }
  }

  lemma {:induction false} StripRightLower(s: string)
    ensures StripRight(Lower(s)) == Lower(StripRight(s))
  {
    if |s| == 0 {
      assert Lower(s) == [];
    } else {
      var k := |s| - 1;
      assert Lower(s)[k] == LowerChar(s[k]);
      if IsSpace(s[k]) {
        assert Lower(s)[..k] == Lower(s[..k]);
        StripRightLower(s[..k]);
        assert StripRight(Lower(s)) == StripRight(Lower(s)[..k]);
      } else {
        assert StripRight(s) == s;
        assert StripRight(Lower(s)) == Lower(s);
      }
    }
  }

  datatype Action = Idle | Walk | Stop | Nod | ShakeHead | Wave | Sit | Stand | Twist | Unknown

  /** The branch `run_action` takes for a normalized name. */
  function ActionOf(name: string): Action
  {
    if name == "" || name == "none" then Idle
    else if name == "walk" then Walk
    else if name == "stop" then Stop
    else if name == "nod" then Nod
    else if name == "shake_head" then ShakeHead
    else if name == "wave" then Wave
    else if name == "sit" then Sit
    else if name == "stand" then Stand
    else if name == "twist" then Twist
    else Unknown
  }
}
