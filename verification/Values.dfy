/** Runtime values of the execution IR: what a Go `any` holds once it is inside
    the interpreter (nil, bool, string, int64, float64, []any, map[string]any). */
module Values {

  datatype Option<+T> = None | Some(value: T)

  const TWO63: int := 0x8000_0000_0000_0000

  type int64 = i: int | -0x8000_0000_0000_0000 <= i < 0x8000_0000_0000_0000

  /** A binary64 datum by value: a finite one is the real number it denotes
      (both zeros denote 0.0). */
  datatype Float = NaN | PosInf | NegInf | Fin(r: real)

  datatype Val =
    | Null
    | Bool(b: bool)
    | Str(s: string)
    | Int(i: int64)
    | Flt(f: Float)
    | Arr(xs: seq<Val>)
    | Obj(m: map<string, Val>)
}
