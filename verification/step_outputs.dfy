/** The output signature of a step (src/zenml/steps/utils.py):
    `parse_return_type_annotations` turns the `return` annotation of a step
    function into a map from output name to resolved type, and
    `resolve_type_annotation` replaces a generic typing alias by its origin
    class. */
module StepOutputs {
  /** `SINGLE_RETURN_OUT_NAME` of src/zenml/steps/step_decorator.py. */
  const SINGLE_RETURN_OUT_NAME: string := "output"

  /** A type annotation: a plain class, or a generic alias of the typing
      module (`typing.Dict[str, int]`) whose origin is a class (`dict`). */
  datatype TypeExpr = PlainType(name: string) | GenericAlias(alias: string, origin: string)

  /** The value of the `return` annotation: `None`, a single type, or an
      `Output(name=type, ...)` instance listing its outputs in order. */
  datatype ReturnAnnotation =
    | NoneAnnotation
    | SingleType(t: TypeExpr)
    | OutputAnnotation(outputs: seq<(string, TypeExpr)>)

  /** `resolve_type_annotation` (Python 3.8 and later): the origin of a
      generic alias, the input itself otherwise. */
  function ResolveTypeAnnotation(t: TypeExpr): (r: TypeExpr)
    ensures r.PlainType?
    ensures t.PlainType? ==> r == t
    ensures t.GenericAlias? ==> r.name == t.origin
  {
    match t
    case PlainType(_) => t
    case GenericAlias(_, origin) => PlainType(origin)
  }

  /** The names of the outputs listed by an `Output` annotation. */
  function Names(outputs: seq<(string, TypeExpr)>): set<string> {
    set i | 0 <= i < |outputs| :: outputs[i].0
  }

  lemma NamesOfSnoc(outputs: seq<(string, TypeExpr)>)
    requires |outputs| > 0
    ensures Names(outputs) == Names(outputs[..|outputs| - 1]) + {outputs[|outputs| - 1].0}
  {
    var init := outputs[..|outputs| - 1];
    forall n | n in Names(outputs) ensures n in Names(init) + {outputs[|outputs| - 1].0} {
      var i :| 0 <= i < |outputs| && outputs[i].0 == n;
      if i < |outputs| - 1 {
        assert init[i] == outputs[i];
      }
    }
    forall n | n in Names(init) ensures n in Names(outputs) {
      var i :| 0 <= i < |init| && init[i].0 == n;
      assert outputs[i] == init[i];
    }
  }

  /** The dict comprehension over `Output.items()`: each name maps to its
      resolved type, a later entry overwriting an earlier one. */
  function OutputSignature(outputs: seq<(string, TypeExpr)>): (r: map<string, TypeExpr>)
    ensures r.Keys == Names(outputs)
    ensures forall n :: n in r ==> r[n].PlainType?
  {
    if |outputs| == 0 then map[]
    else
      var last := outputs[|outputs| - 1];
      NamesOfSnoc(outputs);
      OutputSignature(outputs[..|outputs| - 1])[last.0 := ResolveTypeAnnotation(last.1)]
  }

  /** No later output reuses the name of output `i`. */
  predicate LastOfName(outputs: seq<(string, TypeExpr)>, i: nat)
    requires i < |outputs|
  {
    forall j :: i < j < |outputs| ==> outputs[j].0 != outputs[i].0
  }

  /** Each name maps to the resolved type of its last occurrence. */
  lemma {:induction false} OutputSignatureLastWins(outputs: seq<(string, TypeExpr)>, i: nat)
    requires i < |outputs| && LastOfName(outputs, i)
    ensures OutputSignature(outputs)[outputs[i].0] == ResolveTypeAnnotation(outputs[i].1)
  {
    var init := outputs[..|outputs| - 1];
    if i < |outputs| - 1 {
      assert outputs[i] == init[i];
      assert outputs[|outputs| - 1].0 != outputs[i].0;
      assert LastOfName(init, i) by {
        forall j | i < j < |init| ensures init[j].0 != init[i].0 {
          assert init[j] == outputs[j];
        }
      }
      OutputSignatureLastWins(init, i);
    }
  }

  /** `parse_return_type_annotations`: the output signature of a step. */
  function ParseReturnTypeAnnotations(annotations: map<string, ReturnAnnotation>): (r: map<string, TypeExpr>)
    ensures "return" !in annotations || annotations["return"].NoneAnnotation? ==> r == map[]
    ensures "return" in annotations && annotations["return"].SingleType? ==>
              r == map[SINGLE_RETURN_OUT_NAME := ResolveTypeAnnotation(annotations["return"].t)]
    ensures "return" in annotations && annotations["return"].OutputAnnotation? ==>
              r.Keys == Names(annotations["return"].outputs)
    ensures forall n :: n in r ==> r[n].PlainType?
  {
    if "return" !in annotations then map[]
    else match annotations["return"]
      case NoneAnnotation => map[]
      case SingleType(t) =>
        var single := OutputSignature([(SINGLE_RETURN_OUT_NAME, t)]);
        assert Names([(SINGLE_RETURN_OUT_NAME, t)]) == {SINGLE_RETURN_OUT_NAME} by {
          assert [(SINGLE_RETURN_OUT_NAME, t)][0].0 == SINGLE_RETURN_OUT_NAME;
        }
        assert single == map[SINGLE_RETURN_OUT_NAME := ResolveTypeAnnotation(t)];
        single
      case OutputAnnotation(outputs) => OutputSignature(outputs)
  }

  /** Names are distinct, as keyword arguments of `Output` always are. */
  predicate DistinctNames(outputs: seq<(string, TypeExpr)>) {
    forall i, j :: 0 <= i < j < |outputs| ==> outputs[i].0 != outputs[j].0
  }

  /** An `Output` annotation with distinct names has one entry per output. */
  lemma {:induction false} OutputAnnotationEntryCount(annotations: map<string, ReturnAnnotation>, outputs: seq<(string, TypeExpr)>)
    requires "return" in annotations && annotations["return"] == OutputAnnotation(outputs)
    requires DistinctNames(outputs)
    ensures |ParseReturnTypeAnnotations(annotations)| == |outputs|
  {
    var r := ParseReturnTypeAnnotations(annotations);
    DistinctNamesCount(outputs);
    assert |r.Keys| == |Names(outputs)|;
  }

  /** An `Output` annotation with distinct names keeps each output with
      that output's resolved type. */
  lemma {:induction false} OutputAnnotationKeepsEachOutput(annotations: map<string, ReturnAnnotation>, outputs: seq<(string, TypeExpr)>)
    requires "return" in annotations && annotations["return"] == OutputAnnotation(outputs)
    requires DistinctNames(outputs)
    ensures forall i :: 0 <= i < |outputs| ==>
              ParseReturnTypeAnnotations(annotations)[outputs[i].0] == ResolveTypeAnnotation(outputs[i].1)
  {
    var r := ParseReturnTypeAnnotations(annotations);
    forall i | 0 <= i < |outputs| ensures r[outputs[i].0] == ResolveTypeAnnotation(outputs[i].1) {
      OutputSignatureLastWins(outputs, i);
    }
  }

  lemma {:induction false} DistinctNamesCount(outputs: seq<(string, TypeExpr)>)
    requires DistinctNames(outputs)
    ensures |Names(outputs)| == |outputs|
  {
    if |outputs| > 0 {
      var init := outputs[..|outputs| - 1];
      var last := outputs[|outputs| - 1];
      assert DistinctNames(init) by {
        forall i, j | 0 <= i < j < |init| ensures init[i].0 != init[j].0 {
          assert init[i] == outputs[i] && init[j] == outputs[j];
        }
      }
      DistinctNamesCount(init);
      NamesOfSnoc(outputs);
      assert last.0 !in Names(init) by {
        forall i | 0 <= i < |init| ensures init[i].0 != last.0 {
          assert init[i] == outputs[i];
        }
      }
    }
  }
}
