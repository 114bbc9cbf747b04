/** What a page asks of the Next.js router. */
module Router {
  /** `router.replace(path)` or `router.refresh()`. */
  datatype Nav = Replace(path: string) | Refresh
}
