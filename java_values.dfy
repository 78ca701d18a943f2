/** The Java values and exceptions the library passes around: boxed bind
    values, fixed-width integers with two's-complement narrowing, the
    library's error codes, and the exceptions its calls can throw. */
module JavaValues {
  import opened Wrappers
  import opened Text

  const TwoTo31: int := 0x8000_0000
  const TwoTo32: int := 0x1_0000_0000
  const TwoTo63: int := 0x8000_0000_0000_0000

  /** Java int and long. */
  type Int32 = x: int | -TwoTo31 <= x < TwoTo31
  type Int64 = x: int | -TwoTo63 <= x < TwoTo63

  /** The low 32 bits of x read as a signed int: Java's (int) cast, its
      intValue() on Long and BigInteger, and the result of int arithmetic
      that overflows. */
  function ToInt32(x: int): (r: Int32)
    ensures (r - x) % TwoTo32 == 0
  {
    var m := x % TwoTo32;
    if m >= TwoTo31 then m - TwoTo32 else m
  }

  /** Narrowing changes nothing on values that already fit. */
  lemma {:induction false} ToInt32Identity(x: int)
    requires -TwoTo31 <= x < TwoTo31
    ensures ToInt32(x) == x
  {
    if x < 0 {
      assert x % TwoTo32 == x + TwoTo32;
    }
  }

  /** A non-null object bound as a statement parameter or held in a field. */
  datatype Value =
    | IntegerValue(i: Int32)
    | LongValue(l: Int64)
    | BigIntegerValue(b: int)
    | StringValue(s: string)
    | OtherValue(className: string, text: string)

  /** Object.toString() of a value. */
  function ValueText(v: Value): string
  {
    match v
    case IntegerValue(i) => IntToString(i)
    case LongValue(l) => IntToString(l)
    case BigIntegerValue(b) => IntToString(b)
    case StringValue(s) => s
    case OtherValue(_, text) => text
  }

  /** The library's error codes (enums/ErrorCode.java). */
  datatype ErrorCode = Sql2oIsNull | FromNotNull {
    function Code(): int
    {
      match this
      case Sql2oIsNull => 1000
      case FromNotNull => 1001
    }

    function Msg(): string
    {
      match this
      case Sql2oIsNull => "Sql2o instance is not configured successfully, please check your database configuration :)"
      case FromNotNull => "from class cannot be null, please check :)"
    }
  }

  /** An exception a modelled call throws. UserException stands for whatever
      the caller's own code throws inside a transaction. */
  datatype JavaError =
    | NullPointer
    | IndexOutOfBounds
    | ClassCast
    | IllegalArgument(message: string)
    | IllegalState(message: string)
    | WrapperError(code: Option<ErrorCode>, message: string)
    | UserException(className: string, superClasses: seq<string>)
  {
    function ClassName(): string
    {
      match this
      case NullPointer => "java.lang.NullPointerException"
      case IndexOutOfBounds => "java.lang.IndexOutOfBoundsException"
      case ClassCast => "java.lang.ClassCastException"
      case IllegalArgument(_) => "java.lang.IllegalArgumentException"
      case IllegalState(_) => "java.lang.IllegalStateException"
      case WrapperError(_, _) => "in.asvignesh.databasewrapper.exception.DatabaseWrapperException"
      case UserException(name, _) => name
    }

    /** The superclasses of the exception's class, nearest first. */
    function SuperClasses(): seq<string>
    {
      match this
      case UserException(_, supers) => supers
      case _ => ["java.lang.RuntimeException", "java.lang.Exception", "java.lang.Throwable"]
    }

    /** Class.isInstance: the exception is of class cls or of a subclass. */
    predicate IsInstanceOf(cls: string)
    {
      cls == ClassName() || cls in SuperClasses()
    }
  }

  const RuntimeExceptionClass: string := "java.lang.RuntimeException"

  /** DatabaseWrapperException built from an error code. */
  function CodedError(code: ErrorCode): (e: JavaError)
    ensures e.IsInstanceOf(RuntimeExceptionClass)
  {
    WrapperError(Some(code), code.Msg())
  }
}
