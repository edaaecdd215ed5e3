/**
 * Classification of a field's type for code generation: a map, a
 * vector, an option or anything else, with the classification of the
 * type in brackets. Unsupported generic types are errors.
 */
module TyExt {
  import opened Wrappers
  import opened Ctxt
  import opened Syn

  datatype PrimitiveTy = Map(key: string, value: string) | Vec | Opt | Other

  /**
   * A classified type: the identifier it is known by, the type it
   * describes, its category, and the classification of its bracketed
   * type (for a map, the value type), if any.
   */
  datatype TyInfo = TyInfo(ident: string, ty: Ty, primitive: PrimitiveTy, bracket: Option<TyInfo>)

  /**
   * What classifying a type gives: a classification (or none for types
   * the tool does not recognise), an error message, or a panic (an index
   * out of range).
   */
  datatype TyOutcome = Classified(info: Option<TyInfo>) | Failed(message: string) | Panicked

  /** An outcome together with the errors pushed while computing it. */
  datatype TyParse = TyParse(outcome: TyOutcome, pushed: seq<SynError>)

  const UNSUPPORTED_GENERICS := "Unsupported type with generics: "
  const INNER_TYPE_FAIL := "Unsupported inner type, get inner type fail"

  /** The type arguments among a segment's generic arguments, in order. */
  function TypeArgs(args: seq<GenericArg>): (r: seq<Ty>)
    ensures |r| <= |args|
    ensures forall i :: 0 <= i < |r| ==> TypeArg(r[i]) in args
    ensures (forall a :: a in args ==> a.TypeArg?) ==> |r| == |args|
  {
    if args == [] then []
    else (if args[0].TypeArg? then [args[0].ty] else []) + TypeArgs(args[1..])
  }

  /**
   * `parse_ty`: a one-segment path type is classified by its identifier
   * and generic arguments; a longer path is not recognised; any other
   * type is an error.
   */
  function ParseTy(t: Ty): (r: TyParse)
    decreases t, 1
    ensures !t.PathTy? ==> r.outcome.Failed?
    ensures r.outcome.Classified? && r.outcome.info.Some? ==> Classifies(t, r.outcome.info.value)
  {
    match t
    case PathTy(segs) =>
      if |segs| != 1 then TyParse(Classified(None), [])
      else
        var seg := segs[0];
        if seg.arguments.AngleArgs? then
          var args := seg.arguments.args;
          if seg.ident == "HashMap" then HashMapInfo(t, seg, args)
          else if seg.ident == "Vec" then VecInfo(t, seg, args)
          else if seg.ident == "Option" then OptionInfo(t, seg, args)
          else
            var msg := UNSUPPORTED_GENERICS + seg.ident;
            TyParse(Failed(msg), [SynError(msg)])
        else TyParse(Classified(Some(TyInfo(seg.ident, t, Other, None))), [])
    case _ => TyParse(Failed(INNER_TYPE_FAIL), [])
  }

  /**
   * A classification of `t` names `t`'s one segment. A segment without
   * `<...>` is `Other`, with nothing in brackets, whatever its identifier; a
   * segment with `<...>` is a map (with a bracketed value type) only for
   * `HashMap`, a vector only for `Vec` and an option only for `Option`.
   */
  predicate Classifies(t: Ty, info: TyInfo)
  {
    t.PathTy? && |t.segments| == 1 && info.ident == t.segments[0].ident
    && (info.primitive.Other? <==> !t.segments[0].arguments.AngleArgs?)
    && (info.primitive.Other? ==> info.bracket.None?)
    && (info.primitive.Map? ==> info.ident == "HashMap" && info.bracket.Some?)
    && (info.primitive.Vec? ==> info.ident == "Vec")
    && (info.primitive.Opt? ==> info.ident == "Option")
  }

  /** `HashMap<K, V>`: a map from K's identifier to V's, bracketing V's classification. */
  function HashMapInfo(t: Ty, seg: Segment, args: seq<GenericArg>): (r: TyParse)
    requires t == PathTy([seg]) && seg.arguments == AngleArgs(args)
    decreases t, 0
    ensures |args| != 2 ==> r == TyParse(Classified(None), [])
    ensures r.outcome.Classified? && r.outcome.info.Some? ==>
      var info := r.outcome.info.value;
      info.ident == seg.ident && info.ty == t && info.primitive.Map? && info.bracket.Some?
  {
    if |args| != 2 then TyParse(Classified(None), [])
    else
      var types := TypeArgs(args);
      if |types| == 0 then TyParse(Panicked, [])
      else
        ArgSmaller(t, seg, args, types[0]);
        var key := ParseTy(types[0]);
        if !key.outcome.Classified? then key
        else if key.outcome.info.None? then TyParse(Classified(None), [])
        else if |types| == 1 then TyParse(Panicked, [])
        else
          ArgSmaller(t, seg, args, types[1]);
          var val := ParseTy(types[1]);
          if !val.outcome.Classified? then val
          else if val.outcome.info.None? then TyParse(Classified(None), [])
          else
            var m := Map(key.outcome.info.value.ident, val.outcome.info.value.ident);
            TyParse(Classified(Some(TyInfo(seg.ident, t, m, val.outcome.info))), [])
  }

  /** `Option<T>`: an option bracketing T's classification. */
  function OptionInfo(t: Ty, seg: Segment, args: seq<GenericArg>): (r: TyParse)
    requires t == PathTy([seg]) && seg.arguments == AngleArgs(args)
    decreases t, 0
    ensures |TypeArgs(args)| != 1 ==> r == TyParse(Classified(None), [])
    ensures r.outcome.Classified? && r.outcome.info.Some? ==>
      var info := r.outcome.info.value;
      info.ident == seg.ident && info.ty == t && info.primitive.Opt?
  {
    var types := TypeArgs(args);
    if |types| != 1 then TyParse(Classified(None), [])
    else
      ArgSmaller(t, seg, args, types[0]);
      var inner := ParseTy(types[0]);
      if !inner.outcome.Classified? then inner
      else TyParse(Classified(Some(TyInfo(seg.ident, t, Opt, inner.outcome.info))), [])
  }

  /** `Vec<T>`: a vector bracketing T's classification; its type is T itself. */
  function VecInfo(t: Ty, seg: Segment, args: seq<GenericArg>): (r: TyParse)
    requires t == PathTy([seg]) && seg.arguments == AngleArgs(args)
    decreases t, 0
    ensures |args| != 1 || !args[0].TypeArg? ==> r == TyParse(Classified(None), [])
    ensures r.outcome.Classified? && r.outcome.info.Some? ==>
      var info := r.outcome.info.value;
      info.ident == seg.ident && info.ty == args[0].ty && info.primitive.Vec?
  {
    if |args| != 1 then TyParse(Classified(None), [])
    else
      match args[0]
      case TypeArg(inner) =>
        ArgSmaller(t, seg, args, inner);
        var sub := ParseTy(inner);
        if !sub.outcome.Classified? then sub
        else TyParse(Classified(Some(TyInfo(seg.ident, inner, Vec, sub.outcome.info))), [])
      case OtherArg(_) => TyParse(Classified(None), [])
  }

  /** A type argument of a one-segment path type is smaller than the type. */
  lemma ArgSmaller(t: Ty, seg: Segment, args: seq<GenericArg>, x: Ty)
    requires t == PathTy([seg]) && seg.arguments == AngleArgs(args)
    requires TypeArg(x) in args
    ensures x < t
  {
    var j :| 0 <= j < |args| && args[j] == TypeArg(x);
    assert args[j] < seg.arguments;
    assert [seg][0] == seg;
  }

  /** `parse_ty` against a collector: the outcome, with its errors pushed. */
  method ParseTyInto(cx: ASTResult, t: Ty) returns (r: TyOutcome)
    modifies cx
    ensures r == ParseTy(t).outcome
    ensures cx.errors == old(cx.errors) + ParseTy(t).pushed
    ensures cx.isChecked == old(cx.isChecked)
  {
    var p := ParseTy(t);
    if p.pushed != [] {
      PushedIsFailure(t);
      cx.ErrorSpannedBy(p.outcome.message);
    }
    r := p.outcome;
  }

  // ---- properties ----

  /**
   * Classifying pushes at most one error, and only when it fails with
   * that error's message; a classification or a panic pushes nothing.
   */
  lemma {:induction false} PushedIsFailure(t: Ty)
    ensures ParseTy(t).pushed == [] || (ParseTy(t).outcome.Failed? && ParseTy(t).pushed == [SynError(ParseTy(t).outcome.message)])
    ensures !ParseTy(t).outcome.Failed? ==> ParseTy(t).pushed == []
    decreases t
  {
    match t
    case PathTy(segs) =>
      if |segs| == 1 && segs[0].arguments.AngleArgs? {
        var seg := segs[0];
        var args := seg.arguments.args;
        var types := TypeArgs(args);
        if seg.ident == "HashMap" {
          if |args| == 2 && |types| > 0 {
            assert TypeArg(types[0]) in args;
            PushedIsFailure(types[0]);
            if |types| > 1 {
              assert TypeArg(types[1]) in args;
              PushedIsFailure(types[1]);
            }
          }
        } else if seg.ident == "Vec" {
          if |args| == 1 && args[0].TypeArg? {
            PushedIsFailure(args[0].ty);
          }
        } else if seg.ident == "Option" {
          if |types| == 1 {
            assert TypeArg(types[0]) in args;
            PushedIsFailure(types[0]);
          }
        }
      }
    case GroupTy(_) =>
    case OtherTy(_) =>
  }

  /** A path of more than one segment is not recognised, and nothing is pushed. */
  lemma MultiSegmentUnrecognised(segs: seq<Segment>)
    requires |segs| > 1
    ensures ParseTy(PathTy(segs)) == TyParse(Classified(None), [])
  {
  }

  /** A single identifier without `<...>` arguments is classified as `Other`, with no bracketed type. */
  lemma PlainIdentIsOther(ident: string, a: PathArgs)
    requires !a.AngleArgs?
    ensures ParseTy(PathTy([Segment(ident, a)])) == TyParse(Classified(Some(TyInfo(ident, PathTy([Segment(ident, a)]), Other, None))), [])
  {
  }

  /** `Vec<T>` is a vector bracketing T's classification; other argument counts are not recognised. */
  lemma VecOf(inner: Ty, args: seq<GenericArg>)
    ensures
      var t := PathTy([Segment("Vec", AngleArgs([TypeArg(inner)]))]);
      ParseTy(inner).outcome.Classified? ==>
        ParseTy(t) == TyParse(Classified(Some(TyInfo("Vec", inner, Vec, ParseTy(inner).outcome.info))), [])
    ensures |args| != 1 ==> ParseTy(PathTy([Segment("Vec", AngleArgs(args))])) == TyParse(Classified(None), [])
  {
  }

  /** `Option<T>` is an option bracketing T's classification; other type-argument counts are not recognised. */
  lemma OptionOf(inner: Ty, args: seq<GenericArg>)
    ensures
      var t := PathTy([Segment("Option", AngleArgs([TypeArg(inner)]))]);
      ParseTy(inner).outcome.Classified? ==>
        ParseTy(t) == TyParse(Classified(Some(TyInfo("Option", t, Opt, ParseTy(inner).outcome.info))), [])
    ensures |TypeArgs(args)| != 1 ==> ParseTy(PathTy([Segment("Option", AngleArgs(args))])) == TyParse(Classified(None), [])
  {
  }

  /**
   * `HashMap<K, V>` with both sides classified is a map from K's
   * identifier to V's, bracketing V; either side unrecognised makes the
   * whole map unrecognised, and so does a wrong argument count.
   */
  lemma HashMapOf(k: Ty, v: Ty, args: seq<GenericArg>)
    ensures
      var t := PathTy([Segment("HashMap", AngleArgs([TypeArg(k), TypeArg(v)]))]);
      var kp := ParseTy(k).outcome;
      var vp := ParseTy(v).outcome;
      (kp.Classified? && kp.info.Some? && vp.Classified? && vp.info.Some? ==>
        ParseTy(t) == TyParse(Classified(Some(TyInfo("HashMap", t, Map(kp.info.value.ident, vp.info.value.ident), vp.info))), []))
      && (kp == Classified(None) ==> ParseTy(t) == TyParse(Classified(None), []))
      && (kp.Classified? && kp.info.Some? && vp == Classified(None) ==> ParseTy(t) == TyParse(Classified(None), []))
    ensures |args| != 2 ==> ParseTy(PathTy([Segment("HashMap", AngleArgs(args))])) == TyParse(Classified(None), [])
  {
    var args2 := [TypeArg(k), TypeArg(v)];
    assert TypeArgs(args2) == [k, v] by {
      assert args2[1..] == [TypeArg(v)];
      assert args2[1..][1..] == [];
    }
  }

  /** Any other generic type is an error naming its identifier, and that error is pushed. */
  lemma OtherGenericFails(ident: string, args: seq<GenericArg>)
    requires ident != "HashMap" && ident != "Vec" && ident != "Option"
    ensures
      var msg := UNSUPPORTED_GENERICS + ident;
      ParseTy(PathTy([Segment(ident, AngleArgs(args))])) == TyParse(Failed(msg), [SynError(msg)])
  {
  }

  /** A type that is not a path is an error, and nothing is pushed. */
  lemma NonPathFails(t: Ty)
    requires !t.PathTy?
    ensures ParseTy(t) == TyParse(Failed(INNER_TYPE_FAIL), [])
  {
  }

  /** An error inside the brackets of a vector, an option or a map's key is the whole type's error. */
  lemma ErrorsPropagate(inner: Ty, other: Ty)
    requires ParseTy(inner).outcome.Failed?
    ensures ParseTy(PathTy([Segment("Vec", AngleArgs([TypeArg(inner)]))])) == ParseTy(inner)
    ensures ParseTy(PathTy([Segment("Option", AngleArgs([TypeArg(inner)]))])) == ParseTy(inner)
    ensures ParseTy(PathTy([Segment("HashMap", AngleArgs([TypeArg(inner), TypeArg(other)]))])) == ParseTy(inner)
  {
    var args2 := [TypeArg(inner), TypeArg(other)];
    assert TypeArgs(args2) == [inner, other] by {
      assert args2[1..] == [TypeArg(other)];
      assert args2[1..][1..] == [];
    }
  }

  /** A map whose key is classified but whose value type fails has the value's error. */
  lemma ValueErrorPropagates(k: Ty, v: Ty)
    requires ParseTy(k).outcome.Classified? && ParseTy(k).outcome.info.Some?
    requires ParseTy(v).outcome.Failed?
    ensures ParseTy(PathTy([Segment("HashMap", AngleArgs([TypeArg(k), TypeArg(v)]))])) == ParseTy(v)
  {
    var args2 := [TypeArg(k), TypeArg(v)];
    assert TypeArgs(args2) == [k, v] by {
      assert args2[1..] == [TypeArg(v)];
      assert args2[1..][1..] == [];
    }
  }

  /** `HashMap<'a, K>` has two arguments but one type: classifying it indexes past the end. */
  lemma MapWithLifetimePanics(lifetime: string, k: Ty)
    requires ParseTy(k).outcome.Classified? && ParseTy(k).outcome.info.Some?
    ensures ParseTy(PathTy([Segment("HashMap", AngleArgs([OtherArg(lifetime), TypeArg(k)]))])).outcome == Panicked
  {
    var args2 := [OtherArg(lifetime), TypeArg(k)];
    assert TypeArgs(args2) == [k] by {
      assert args2[1..] == [TypeArg(k)];
      assert args2[1..][1..] == [];
    }
  }
}
