/** The records the registry stores (exporter/exports/export.go). */
module ExportRecords {
  import opened Comments
  import opened Parameters

  /** One exported symbol: the name it is exported under, its original name, its package. */
  datatype Export = Export(ExportName: string, Name: string, Package: string, Comment: Comment)

  /** An exported function: the embedded `Export` and the function's signature. */
  datatype FunctionExport = FunctionExport(Export: Export, Signature: FunctionSignature)
}
