/** `BlockOptions`: everything one block rendering is configured by. */
module BlockOptions {
  import opened Optional
  import opened StyleOptions

  /**
   * `block_type` is the label shown in brackets, `prefix` the text that
   * starts every line, `padding` whether a full-width line opens and closes
   * the block.
   */
  datatype BlockOptions = BlockOptions(
    blockType: Option<string>,
    style: Option<StyleOptions>,
    prefix: string,
    padding: bool)

  /** `BlockOptions::default()` */
  function DefaultBlockOptions(): (o: BlockOptions)
    ensures o.blockType.None? && o.style.None?
    ensures o.prefix == "" && !o.padding
  {
    BlockOptions(None, None, "", false)
  }
}
