/**
 * The builtin functions of the language (lp/builtins.py): `longitud`, the
 * length of a string, and the registry that binds the name to it. The
 * runtime objects are those of lp/object.py, which is not part of this model;
 * only the shapes `longitud` can receive and return are given here.
 */
module Builtins {
  import Numerals
  import Tokens

  /** The kind of a runtime object, as its `type()` reports it. */
  datatype ObjectType =
    | BooleanType | BuiltinType | ErrorType | FunctionType
    | IntegerType | NullType | ReturnType | StringType

  /** The enumeration member name of a kind, which error messages show. */
  function TypeName(t: ObjectType): string
  {
    match t
    case BooleanType => "BOOLEAN"
    case BuiltinType => "BUILTIN"
    case ErrorType => "ERROR"
    case FunctionType => "FUNCTION"
    case IntegerType => "INTEGER"
    case NullType => "NULL"
    case ReturnType => "RETURN"
    case StringType => "STRING"
  }

  /** The native functions a Builtin object can wrap. */
  datatype BuiltinFunction = Longitud

  /**
   * Runtime objects. A user-defined function (parameters, body and captured
   * environment) is left out: only its kind matters to `longitud`.
   */
  datatype Object =
    | Integer(value: int)
    | Boolean(truth: bool)
    | Null
    | String(text: string)
    | Error(message: string)
    | Return(inner: Object)
    | Builtin(native: BuiltinFunction)
    | Function

  function Type(o: Object): ObjectType
  {
    match o
    case Integer(_) => IntegerType
    case Boolean(_) => BooleanType
    case Null => NullType
    case String(_) => StringType
    case Error(_) => ErrorType
    case Return(_) => ReturnType
    case Builtin(_) => BuiltinType
    case Function => FunctionType
  }

  const WrongNumberPrefix: string := "Numero incorrecto de argumentos para longitud, se recibieron "
  const WrongNumberInfix: string := ", se requieren "
  const UnsupportedPrefix: string := "Argumento para longitud sin soporte, se recibio "

  /** The wrong-arity message with its two placeholders filled by the received and the required count. */
  function WrongNumberOfArguments(received: nat, required: nat): string
  {
    WrongNumberPrefix + Numerals.NatToString(received) + WrongNumberInfix + Numerals.NatToString(required)
  }

  /** The unsupported-argument message with its placeholder filled by a type name. */
  function UnsupportedArgument(name: string): string
  {
    UnsupportedPrefix + name
  }

  /**
   * `longitud(*args)`: the number of characters of its one String argument.
   * The count of arguments is checked first, then the exact kind of the
   * argument; every other call gives an Error object, never an exception.
   */
  function Length(args: seq<Object>): (r: Object)
    ensures r.Integer? || r.Error?
    ensures r.Integer? <==> |args| == 1 && args[0].String?
    ensures r.Integer? ==> r.value == |args[0].text| && r.value >= 0
    ensures |args| != 1 ==> r == Error(WrongNumberOfArguments(|args|, 1))
    ensures |args| == 1 && !args[0].String? ==> r == Error(UnsupportedArgument(TypeName(Type(args[0]))))
  {
    if |args| != 1 then Error(WrongNumberOfArguments(|args|, 1))
    else if Type(args[0]) == StringType then Integer(|args[0].text|)
    else Error(UnsupportedArgument(TypeName(Type(args[0]))))
  }

  /** Calling the native function a Builtin object wraps. */
  function Call(f: BuiltinFunction, args: seq<Object>): Object
  {
    match f
    case Longitud => Length(args)
  }

  /** The registry the evaluator falls back on for names with no binding. */
  const Registry: map<string, Object> := map["longitud" := Builtin(Longitud)]

  /** The registry has the one entry `longitud`, and calling it is `longitud`. */
  lemma RegistryHoldsLength(args: seq<Object>)
    ensures Registry.Keys == {"longitud"}
    ensures Registry["longitud"].Builtin? && Call(Registry["longitud"].native, args) == Length(args)
  {
    assert "longitud" in Registry;
    forall k | k in Registry
      ensures k == "longitud"
    {
    }
  }

  /** Different kinds have different names, so the unsupported-argument message identifies the kind. */
  lemma TypeNameInjective(t: ObjectType, u: ObjectType)
    ensures TypeName(t) == TypeName(u) <==> t == u
  {
    if t != u {
      var a, b := TypeName(t), TypeName(u);
      if |a| == |b| {
        assert a[0] != b[0] || a[1] != b[1];
      }
    }
  }

  /** A rendered count followed by text that starts with a comma: the first comma is right after the count. */
  lemma CommaAfterDigits(digits: string, rest: string)
    requires Numerals.AllDigits(digits) && rest != [] && rest[0] == ','
    ensures Tokens.IndexOf(digits + rest, ',') == |digits|
  {
    var s := digits + rest;
    assert s[|digits|] == ',';
    assert forall j :: 0 <= j < |digits| ==> s[j] == digits[j];
  }

  /** Two wrong-arity messages for the same required count agree only when the received counts do. */
  lemma {:induction false} WrongNumberInjective(m: nat, n: nat, required: nat)
    ensures WrongNumberOfArguments(m, required) == WrongNumberOfArguments(n, required) <==> m == n
  {
    if WrongNumberOfArguments(m, required) == WrongNumberOfArguments(n, required) {
      var a, b := Numerals.NatToString(m), Numerals.NatToString(n);
      var tail := WrongNumberInfix + Numerals.NatToString(required);
      var p := |WrongNumberPrefix|;
      assert WrongNumberOfArguments(m, required)[p..] == a + tail;
      assert WrongNumberOfArguments(n, required)[p..] == b + tail;
      assert tail[0] == ',';
      CommaAfterDigits(a, tail);
      CommaAfterDigits(b, tail);
      assert a == (a + tail)[..|a|] == (b + tail)[..|b|] == b;
      Numerals.NatToStringInjective(m, n);
    }
  }

  /** A wrong-arity message is never an unsupported-argument message: it is longer than any of them. */
  lemma ErrorsDiffer(received: nat, required: nat, t: ObjectType)
    ensures WrongNumberOfArguments(received, required) != UnsupportedArgument(TypeName(t))
  {
    assert |TypeName(t)| <= 8;
  }

  /**
   * The error of a call to `longitud` tells the calls apart: calls with
   * different wrong argument counts, and calls with one argument of
   * different unsupported kinds, give different messages, and no arity error
   * looks like a kind error.
   */
  lemma {:induction false} ErrorsIdentifyTheCall(xs: seq<Object>, ys: seq<Object>)
    requires Length(xs).Error? && Length(ys).Error?
    ensures Length(xs) == Length(ys) <==>
              if |xs| != 1 || |ys| != 1 then |xs| == |ys| else Type(xs[0]) == Type(ys[0])
  {
    if |xs| != 1 && |ys| != 1 {
      WrongNumberInjective(|xs|, |ys|, 1);
    } else if |xs| != 1 {
      ErrorsDiffer(|xs|, 1, Type(ys[0]));
    } else if |ys| != 1 {
      ErrorsDiffer(|ys|, 1, Type(xs[0]));
    } else {
      TypeNameInjective(Type(xs[0]), Type(ys[0]));
      var a, b := TypeName(Type(xs[0])), TypeName(Type(ys[0]));
      if UnsupportedPrefix + a == UnsupportedPrefix + b {
        assert a == (UnsupportedPrefix + a)[|UnsupportedPrefix|..];
        assert b == (UnsupportedPrefix + b)[|UnsupportedPrefix|..];
      }
    }
  }

  /** `longitud("abc")` is 3, and `longitud(5)` is an Error naming INTEGER. */
  lemma OneArgumentExamples()
    ensures Length([String("abc")]) == Integer(3)
    ensures Length([Integer(5)]) == Error("Argumento para longitud sin soporte, se recibio INTEGER")
  {
  }

  /** With no argument, `longitud` reports that it received 0 and requires 1. */
  lemma NoArgumentExample()
    ensures Length([]) == Error("Numero incorrecto de argumentos para longitud, se recibieron 0, se requieren 1")
  {
    assert Numerals.DigitChar(0) == '0' && Numerals.DigitChar(1) == '1';
  }

  /** Two strings are still the wrong number of arguments: the count is checked before the kinds. */
  lemma TwoStringsExample()
    ensures Length([String("a"), String("b")]) == Error("Numero incorrecto de argumentos para longitud, se recibieron 2, se requieren 1")
  {
    assert Numerals.DigitChar(2) == '2' && Numerals.DigitChar(1) == '1';
  }
}
