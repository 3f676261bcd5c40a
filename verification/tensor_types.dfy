/** The element types of the label tensors that reach the model. */
module TensorTypes {

  datatype DType =
    | Int64    // torch.long
    | Int32    // torch.int
    | Int16
    | Int8
    | UInt8
    | Bool
    | Float16
    | Float32  // torch.float
    | Float64

  /** The two dtypes the forward pass treats as class indices: `torch.long` and
      `torch.int`. Other integer widths do not qualify. */
  predicate IsClassIndexDType(d: DType) {
    d == Int64 || d == Int32
  }
}
