/** Value types shared by the platform-services model. */
module Types {

  datatype Option<T> = None | Some(value: T)

  /** One byte of UTF-8 text (`char` in a `std::string`). */
  newtype Byte = x: int | 0 <= x < 0x100

  /** One UTF-16 code unit (ICU's `UChar`, a `char16_t`). */
  newtype CodeUnit = x: int | 0 <= x < 0x1_0000

  /** One element of a `std::wstring` (a 32-bit `wchar_t`). */
  newtype WideChar = x: int | 0 <= x < 0x1_0000_0000

  /** The blank (`L' '`) that new string positions are filled with. */
  const Blank: CodeUnit := 0x20

  /** A handle returned by the ICU library (a non-null pointer). */
  type Handle = nat
}
