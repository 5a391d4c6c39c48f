/** The handful of Python `str` operations the scripts rely on, on `string == seq<char>`. */
module Text {
  import opened Wrappers

  /** Python's `str.isspace`; `\s` in a regex, `str.split()` and `str.strip()` use the same table. */
  predicate IsSpace(c: char) {
    || c == ' '
    || '\t' <= c <= '\r'
    || '\U{1C}' <= c <= '\U{1F}'
    || c == '\U{85}' || c == '\U{A0}' || c == '\U{1680}'
    || '\U{2000}' <= c <= '\U{200A}'
    || c == '\U{2028}' || c == '\U{2029}' || c == '\U{202F}' || c == '\U{205F}' || c == '\U{3000}'
  }

  /** An ASCII decimal digit, as `ipaddress` and `int` of a printed number accept it. */
  predicate IsDigit(c: char) { '0' <= c <= '9' }

  /** Python's `str.isdigit()`: a character whose Unicode numeric type is Decimal or Digit.
      The ranges are those of Unicode 15.0. */
  predicate IsPyDigit(c: char) {
    || '0' <= c <= '9'
    || '\U{B2}' <= c <= '\U{B3}'
    || c == '\U{B9}'
    || '\U{660}' <= c <= '\U{669}'
    || '\U{6F0}' <= c <= '\U{6F9}'
    || '\U{7C0}' <= c <= '\U{7C9}'
    || '\U{966}' <= c <= '\U{96F}'
    || '\U{9E6}' <= c <= '\U{9EF}'
    || '\U{A66}' <= c <= '\U{A6F}'
    || '\U{AE6}' <= c <= '\U{AEF}'
    || '\U{B66}' <= c <= '\U{B6F}'
    || '\U{BE6}' <= c <= '\U{BEF}'
    || '\U{C66}' <= c <= '\U{C6F}'
    || '\U{CE6}' <= c <= '\U{CEF}'
    || '\U{D66}' <= c <= '\U{D6F}'
    || '\U{DE6}' <= c <= '\U{DEF}'
    || '\U{E50}' <= c <= '\U{E59}'
    || '\U{ED0}' <= c <= '\U{ED9}'
    || '\U{F20}' <= c <= '\U{F29}'
    || '\U{1040}' <= c <= '\U{1049}'
    || '\U{1090}' <= c <= '\U{1099}'
    || '\U{1369}' <= c <= '\U{1371}'
    || '\U{17E0}' <= c <= '\U{17E9}'
    || '\U{1810}' <= c <= '\U{1819}'
    || '\U{1946}' <= c <= '\U{194F}'
    || '\U{19D0}' <= c <= '\U{19DA}'
    || '\U{1A80}' <= c <= '\U{1A89}'
    || '\U{1A90}' <= c <= '\U{1A99}'
    || '\U{1B50}' <= c <= '\U{1B59}'
    || '\U{1BB0}' <= c <= '\U{1BB9}'
    || '\U{1C40}' <= c <= '\U{1C49}'
    || '\U{1C50}' <= c <= '\U{1C59}'
    || c == '\U{2070}'
    || '\U{2074}' <= c <= '\U{2079}'
    || '\U{2080}' <= c <= '\U{2089}'
    || '\U{2460}' <= c <= '\U{2468}'
    || '\U{2474}' <= c <= '\U{247C}'
    || '\U{2488}' <= c <= '\U{2490}'
    || c == '\U{24EA}'
    || '\U{24F5}' <= c <= '\U{24FD}'
    || c == '\U{24FF}'
    || '\U{2776}' <= c <= '\U{277E}'
    || '\U{2780}' <= c <= '\U{2788}'
    || '\U{278A}' <= c <= '\U{2792}'
    || '\U{A620}' <= c <= '\U{A629}'
    || '\U{A8D0}' <= c <= '\U{A8D9}'
    || '\U{A900}' <= c <= '\U{A909}'
    || '\U{A9D0}' <= c <= '\U{A9D9}'
    || '\U{A9F0}' <= c <= '\U{A9F9}'
    || '\U{AA50}' <= c <= '\U{AA59}'
    || '\U{ABF0}' <= c <= '\U{ABF9}'
    || '\U{FF10}' <= c <= '\U{FF19}'
    || '\U{104A0}' <= c <= '\U{104A9}'
    || '\U{10A40}' <= c <= '\U{10A43}'
    || '\U{10D30}' <= c <= '\U{10D39}'
    || '\U{10E60}' <= c <= '\U{10E68}'
    || '\U{11052}' <= c <= '\U{1105A}'
    || '\U{11066}' <= c <= '\U{1106F}'
    || '\U{110F0}' <= c <= '\U{110F9}'
    || '\U{11136}' <= c <= '\U{1113F}'
    || '\U{111D0}' <= c <= '\U{111D9}'
    || '\U{112F0}' <= c <= '\U{112F9}'
    || '\U{11450}' <= c <= '\U{11459}'
    || '\U{114D0}' <= c <= '\U{114D9}'
    || '\U{11650}' <= c <= '\U{11659}'
    || '\U{116C0}' <= c <= '\U{116C9}'
    || '\U{11730}' <= c <= '\U{11739}'
    || '\U{118E0}' <= c <= '\U{118E9}'
    || '\U{11950}' <= c <= '\U{11959}'
    || '\U{11C50}' <= c <= '\U{11C59}'
    || '\U{11D50}' <= c <= '\U{11D59}'
    || '\U{11DA0}' <= c <= '\U{11DA9}'
    || '\U{11F50}' <= c <= '\U{11F59}'
    || '\U{16A60}' <= c <= '\U{16A69}'
    || '\U{16AC0}' <= c <= '\U{16AC9}'
    || '\U{16B50}' <= c <= '\U{16B59}'
    || '\U{1D7CE}' <= c <= '\U{1D7FF}'
    || '\U{1E140}' <= c <= '\U{1E149}'
    || '\U{1E2F0}' <= c <= '\U{1E2F9}'
    || '\U{1E4F0}' <= c <= '\U{1E4F9}'
    || '\U{1E950}' <= c <= '\U{1E959}'
    || '\U{1F100}' <= c <= '\U{1F10A}'
    || '\U{1FBF0}' <= c <= '\U{1FBF9}'
  }

  /** The regex class `\d` on `str` patterns, which is `str.isdecimal()`: a character of
      Unicode category Nd. The ranges are those of Unicode 15.0. */
  predicate IsDecimalChar(c: char) {
    || '0' <= c <= '9'
    || '\U{660}' <= c <= '\U{669}'
    || '\U{6F0}' <= c <= '\U{6F9}'
    || '\U{7C0}' <= c <= '\U{7C9}'
    || '\U{966}' <= c <= '\U{96F}'
    || '\U{9E6}' <= c <= '\U{9EF}'
    || '\U{A66}' <= c <= '\U{A6F}'
    || '\U{AE6}' <= c <= '\U{AEF}'
    || '\U{B66}' <= c <= '\U{B6F}'
    || '\U{BE6}' <= c <= '\U{BEF}'
    || '\U{C66}' <= c <= '\U{C6F}'
    || '\U{CE6}' <= c <= '\U{CEF}'
    || '\U{D66}' <= c <= '\U{D6F}'
    || '\U{DE6}' <= c <= '\U{DEF}'
    || '\U{E50}' <= c <= '\U{E59}'
    || '\U{ED0}' <= c <= '\U{ED9}'
    || '\U{F20}' <= c <= '\U{F29}'
    || '\U{1040}' <= c <= '\U{1049}'
    || '\U{1090}' <= c <= '\U{1099}'
    || '\U{17E0}' <= c <= '\U{17E9}'
    || '\U{1810}' <= c <= '\U{1819}'
    || '\U{1946}' <= c <= '\U{194F}'
    || '\U{19D0}' <= c <= '\U{19D9}'
    || '\U{1A80}' <= c <= '\U{1A89}'
    || '\U{1A90}' <= c <= '\U{1A99}'
    || '\U{1B50}' <= c <= '\U{1B59}'
    || '\U{1BB0}' <= c <= '\U{1BB9}'
    || '\U{1C40}' <= c <= '\U{1C49}'
    || '\U{1C50}' <= c <= '\U{1C59}'
    || '\U{A620}' <= c <= '\U{A629}'
    || '\U{A8D0}' <= c <= '\U{A8D9}'
    || '\U{A900}' <= c <= '\U{A909}'
    || '\U{A9D0}' <= c <= '\U{A9D9}'
    || '\U{A9F0}' <= c <= '\U{A9F9}'
    || '\U{AA50}' <= c <= '\U{AA59}'
    || '\U{ABF0}' <= c <= '\U{ABF9}'
    || '\U{FF10}' <= c <= '\U{FF19}'
    || '\U{104A0}' <= c <= '\U{104A9}'
    || '\U{10D30}' <= c <= '\U{10D39}'
    || '\U{11066}' <= c <= '\U{1106F}'
    || '\U{110F0}' <= c <= '\U{110F9}'
    || '\U{11136}' <= c <= '\U{1113F}'
    || '\U{111D0}' <= c <= '\U{111D9}'
    || '\U{112F0}' <= c <= '\U{112F9}'
    || '\U{11450}' <= c <= '\U{11459}'
    || '\U{114D0}' <= c <= '\U{114D9}'
    || '\U{11650}' <= c <= '\U{11659}'
    || '\U{116C0}' <= c <= '\U{116C9}'
    || '\U{11730}' <= c <= '\U{11739}'
    || '\U{118E0}' <= c <= '\U{118E9}'
    || '\U{11950}' <= c <= '\U{11959}'
    || '\U{11C50}' <= c <= '\U{11C59}'
    || '\U{11D50}' <= c <= '\U{11D59}'
    || '\U{11DA0}' <= c <= '\U{11DA9}'
    || '\U{11F50}' <= c <= '\U{11F59}'
    || '\U{16A60}' <= c <= '\U{16A69}'
    || '\U{16AC0}' <= c <= '\U{16AC9}'
    || '\U{16B50}' <= c <= '\U{16B59}'
    || '\U{1D7CE}' <= c <= '\U{1D7FF}'
    || '\U{1E140}' <= c <= '\U{1E149}'
    || '\U{1E2F0}' <= c <= '\U{1E2F9}'
    || '\U{1E4F0}' <= c <= '\U{1E4F9}'
    || '\U{1E950}' <= c <= '\U{1E959}'
    || '\U{1FBF0}' <= c <= '\U{1FBF9}'
  }

  /** The regex class `\w` on `str` patterns: `_` and every character `str.isalnum()`
      accepts (a letter, a decimal, a digit or a numeric character). The ranges are those of
      Unicode 15.0, in blocks of ascending code points. */
  predicate IsPyWordChar(c: char) {
    if c < '\U{620}' then WordBlock0(c)
    else if c < '\U{993}' then WordBlock1(c)
    else if c < '\U{AF9}' then WordBlock2(c)
    else if c < '\U{C66}' then WordBlock3(c)
    else if c < '\U{E81}' then WordBlock4(c)
    else if c < '\U{124A}' then WordBlock5(c)
    else if c < '\U{17E0}' then WordBlock6(c)
    else if c < '\U{1CF5}' then WordBlock7(c)
    else if c < '\U{2126}' then WordBlock8(c)
    else if c < '\U{3031}' then WordBlock9(c)
    else if c < '\U{A807}' then WordBlock10(c)
    else if c < '\U{AB09}' then WordBlock11(c)
    else if c < '\U{FF66}' then WordBlock12(c)
    else if c < '\U{1057C}' then WordBlock13(c)
    else if c < '\U{10A40}' then WordBlock14(c)
    else if c < '\U{11103}' then WordBlock15(c)
    else if c < '\U{11450}' then WordBlock16(c)
    else if c < '\U{11A0B}' then WordBlock17(c)
    else if c < '\U{13000}' then WordBlock18(c)
    else if c < '\U{1B170}' then WordBlock19(c)
    else if c < '\U{1D736}' then WordBlock20(c)
    else if c < '\U{1ED2F}' then WordBlock21(c)
    else if c < '\U{1EEA5}' then WordBlock22(c)
    else WordBlock23(c)
  }

  predicate WordBlock0(c: char) {
    || '0' <= c <= '9'
    || 'A' <= c <= 'Z'
    || c == '_'
    || 'a' <= c <= 'z'
    || c == '\U{AA}'
    || '\U{B2}' <= c <= '\U{B3}'
    || c == '\U{B5}'
    || '\U{B9}' <= c <= '\U{BA}'
    || '\U{BC}' <= c <= '\U{BE}'
    || '\U{C0}' <= c <= '\U{D6}'
    || '\U{D8}' <= c <= '\U{F6}'
    || '\U{F8}' <= c <= '\U{2C1}'
    || '\U{2C6}' <= c <= '\U{2D1}'
    || '\U{2E0}' <= c <= '\U{2E4}'
    || c == '\U{2EC}'
    || c == '\U{2EE}'
    || '\U{370}' <= c <= '\U{374}'
    || '\U{376}' <= c <= '\U{377}'
    || '\U{37A}' <= c <= '\U{37D}'
    || c == '\U{37F}'
    || c == '\U{386}'
    || '\U{388}' <= c <= '\U{38A}'
    || c == '\U{38C}'
    || '\U{38E}' <= c <= '\U{3A1}'
    || '\U{3A3}' <= c <= '\U{3F5}'
    || '\U{3F7}' <= c <= '\U{481}'
    || '\U{48A}' <= c <= '\U{52F}'
    || '\U{531}' <= c <= '\U{556}'
    || c == '\U{559}'
    || '\U{560}' <= c <= '\U{588}'
    || '\U{5D0}' <= c <= '\U{5EA}'
    || '\U{5EF}' <= c <= '\U{5F2}'
  }

  predicate WordBlock1(c: char) {
    || '\U{620}' <= c <= '\U{64A}'
    || '\U{660}' <= c <= '\U{669}'
    || '\U{66E}' <= c <= '\U{66F}'
    || '\U{671}' <= c <= '\U{6D3}'
    || c == '\U{6D5}'
    || '\U{6E5}' <= c <= '\U{6E6}'
    || '\U{6EE}' <= c <= '\U{6FC}'
    || c == '\U{6FF}'
    || c == '\U{710}'
    || '\U{712}' <= c <= '\U{72F}'
    || '\U{74D}' <= c <= '\U{7A5}'
    || c == '\U{7B1}'
    || '\U{7C0}' <= c <= '\U{7EA}'
    || '\U{7F4}' <= c <= '\U{7F5}'
    || c == '\U{7FA}'
    || '\U{800}' <= c <= '\U{815}'
    || c == '\U{81A}'
    || c == '\U{824}'
    || c == '\U{828}'
    || '\U{840}' <= c <= '\U{858}'
    || '\U{860}' <= c <= '\U{86A}'
    || '\U{870}' <= c <= '\U{887}'
    || '\U{889}' <= c <= '\U{88E}'
    || '\U{8A0}' <= c <= '\U{8C9}'
    || '\U{904}' <= c <= '\U{939}'
    || c == '\U{93D}'
    || c == '\U{950}'
    || '\U{958}' <= c <= '\U{961}'
    || '\U{966}' <= c <= '\U{96F}'
    || '\U{971}' <= c <= '\U{980}'
    || '\U{985}' <= c <= '\U{98C}'
    || '\U{98F}' <= c <= '\U{990}'
  }

  predicate WordBlock2(c: char) {
    || '\U{993}' <= c <= '\U{9A8}'
    || '\U{9AA}' <= c <= '\U{9B0}'
    || c == '\U{9B2}'
    || '\U{9B6}' <= c <= '\U{9B9}'
    || c == '\U{9BD}'
    || c == '\U{9CE}'
    || '\U{9DC}' <= c <= '\U{9DD}'
    || '\U{9DF}' <= c <= '\U{9E1}'
    || '\U{9E6}' <= c <= '\U{9F1}'
    || '\U{9F4}' <= c <= '\U{9F9}'
    || c == '\U{9FC}'
    || '\U{A05}' <= c <= '\U{A0A}'
    || '\U{A0F}' <= c <= '\U{A10}'
    || '\U{A13}' <= c <= '\U{A28}'
    || '\U{A2A}' <= c <= '\U{A30}'
    || '\U{A32}' <= c <= '\U{A33}'
    || '\U{A35}' <= c <= '\U{A36}'
    || '\U{A38}' <= c <= '\U{A39}'
    || '\U{A59}' <= c <= '\U{A5C}'
    || c == '\U{A5E}'
    || '\U{A66}' <= c <= '\U{A6F}'
    || '\U{A72}' <= c <= '\U{A74}'
    || '\U{A85}' <= c <= '\U{A8D}'
    || '\U{A8F}' <= c <= '\U{A91}'
    || '\U{A93}' <= c <= '\U{AA8}'
    || '\U{AAA}' <= c <= '\U{AB0}'
    || '\U{AB2}' <= c <= '\U{AB3}'
    || '\U{AB5}' <= c <= '\U{AB9}'
    || c == '\U{ABD}'
    || c == '\U{AD0}'
    || '\U{AE0}' <= c <= '\U{AE1}'
    || '\U{AE6}' <= c <= '\U{AEF}'
  }

  predicate WordBlock3(c: char) {
    || c == '\U{AF9}'
    || '\U{B05}' <= c <= '\U{B0C}'
    || '\U{B0F}' <= c <= '\U{B10}'
    || '\U{B13}' <= c <= '\U{B28}'
    || '\U{B2A}' <= c <= '\U{B30}'
    || '\U{B32}' <= c <= '\U{B33}'
    || '\U{B35}' <= c <= '\U{B39}'
    || c == '\U{B3D}'
    || '\U{B5C}' <= c <= '\U{B5D}'
    || '\U{B5F}' <= c <= '\U{B61}'
    || '\U{B66}' <= c <= '\U{B6F}'
    || '\U{B71}' <= c <= '\U{B77}'
    || c == '\U{B83}'
    || '\U{B85}' <= c <= '\U{B8A}'
    || '\U{B8E}' <= c <= '\U{B90}'
    || '\U{B92}' <= c <= '\U{B95}'
    || '\U{B99}' <= c <= '\U{B9A}'
    || c == '\U{B9C}'
    || '\U{B9E}' <= c <= '\U{B9F}'
    || '\U{BA3}' <= c <= '\U{BA4}'
    || '\U{BA8}' <= c <= '\U{BAA}'
    || '\U{BAE}' <= c <= '\U{BB9}'
    || c == '\U{BD0}'
    || '\U{BE6}' <= c <= '\U{BF2}'
    || '\U{C05}' <= c <= '\U{C0C}'
    || '\U{C0E}' <= c <= '\U{C10}'
    || '\U{C12}' <= c <= '\U{C28}'
    || '\U{C2A}' <= c <= '\U{C39}'
    || c == '\U{C3D}'
    || '\U{C58}' <= c <= '\U{C5A}'
    || c == '\U{C5D}'
    || '\U{C60}' <= c <= '\U{C61}'
  }

  predicate WordBlock4(c: char) {
    || '\U{C66}' <= c <= '\U{C6F}'
    || '\U{C78}' <= c <= '\U{C7E}'
    || c == '\U{C80}'
    || '\U{C85}' <= c <= '\U{C8C}'
    || '\U{C8E}' <= c <= '\U{C90}'
    || '\U{C92}' <= c <= '\U{CA8}'
    || '\U{CAA}' <= c <= '\U{CB3}'
    || '\U{CB5}' <= c <= '\U{CB9}'
    || c == '\U{CBD}'
    || '\U{CDD}' <= c <= '\U{CDE}'
    || '\U{CE0}' <= c <= '\U{CE1}'
    || '\U{CE6}' <= c <= '\U{CEF}'
    || '\U{CF1}' <= c <= '\U{CF2}'
    || '\U{D04}' <= c <= '\U{D0C}'
    || '\U{D0E}' <= c <= '\U{D10}'
    || '\U{D12}' <= c <= '\U{D3A}'
    || c == '\U{D3D}'
    || c == '\U{D4E}'
    || '\U{D54}' <= c <= '\U{D56}'
    || '\U{D58}' <= c <= '\U{D61}'
    || '\U{D66}' <= c <= '\U{D78}'
    || '\U{D7A}' <= c <= '\U{D7F}'
    || '\U{D85}' <= c <= '\U{D96}'
    || '\U{D9A}' <= c <= '\U{DB1}'
    || '\U{DB3}' <= c <= '\U{DBB}'
    || c == '\U{DBD}'
    || '\U{DC0}' <= c <= '\U{DC6}'
    || '\U{DE6}' <= c <= '\U{DEF}'
    || '\U{E01}' <= c <= '\U{E30}'
    || '\U{E32}' <= c <= '\U{E33}'
    || '\U{E40}' <= c <= '\U{E46}'
    || '\U{E50}' <= c <= '\U{E59}'
  }

  predicate WordBlock5(c: char) {
    || '\U{E81}' <= c <= '\U{E82}'
    || c == '\U{E84}'
    || '\U{E86}' <= c <= '\U{E8A}'
    || '\U{E8C}' <= c <= '\U{EA3}'
    || c == '\U{EA5}'
    || '\U{EA7}' <= c <= '\U{EB0}'
    || '\U{EB2}' <= c <= '\U{EB3}'
    || c == '\U{EBD}'
    || '\U{EC0}' <= c <= '\U{EC4}'
    || c == '\U{EC6}'
    || '\U{ED0}' <= c <= '\U{ED9}'
    || '\U{EDC}' <= c <= '\U{EDF}'
    || c == '\U{F00}'
    || '\U{F20}' <= c <= '\U{F33}'
    || '\U{F40}' <= c <= '\U{F47}'
    || '\U{F49}' <= c <= '\U{F6C}'
    || '\U{F88}' <= c <= '\U{F8C}'
    || '\U{1000}' <= c <= '\U{102A}'
    || '\U{103F}' <= c <= '\U{1049}'
    || '\U{1050}' <= c <= '\U{1055}'
    || '\U{105A}' <= c <= '\U{105D}'
    || c == '\U{1061}'
    || '\U{1065}' <= c <= '\U{1066}'
    || '\U{106E}' <= c <= '\U{1070}'
    || '\U{1075}' <= c <= '\U{1081}'
    || c == '\U{108E}'
    || '\U{1090}' <= c <= '\U{1099}'
    || '\U{10A0}' <= c <= '\U{10C5}'
    || c == '\U{10C7}'
    || c == '\U{10CD}'
    || '\U{10D0}' <= c <= '\U{10FA}'
    || '\U{10FC}' <= c <= '\U{1248}'
  }

  predicate WordBlock6(c: char) {
    || '\U{124A}' <= c <= '\U{124D}'
    || '\U{1250}' <= c <= '\U{1256}'
    || c == '\U{1258}'
    || '\U{125A}' <= c <= '\U{125D}'
    || '\U{1260}' <= c <= '\U{1288}'
    || '\U{128A}' <= c <= '\U{128D}'
    || '\U{1290}' <= c <= '\U{12B0}'
    || '\U{12B2}' <= c <= '\U{12B5}'
    || '\U{12B8}' <= c <= '\U{12BE}'
    || c == '\U{12C0}'
    || '\U{12C2}' <= c <= '\U{12C5}'
    || '\U{12C8}' <= c <= '\U{12D6}'
    || '\U{12D8}' <= c <= '\U{1310}'
    || '\U{1312}' <= c <= '\U{1315}'
    || '\U{1318}' <= c <= '\U{135A}'
    || '\U{1369}' <= c <= '\U{137C}'
    || '\U{1380}' <= c <= '\U{138F}'
    || '\U{13A0}' <= c <= '\U{13F5}'
    || '\U{13F8}' <= c <= '\U{13FD}'
    || '\U{1401}' <= c <= '\U{166C}'
    || '\U{166F}' <= c <= '\U{167F}'
    || '\U{1681}' <= c <= '\U{169A}'
    || '\U{16A0}' <= c <= '\U{16EA}'
    || '\U{16EE}' <= c <= '\U{16F8}'
    || '\U{1700}' <= c <= '\U{1711}'
    || '\U{171F}' <= c <= '\U{1731}'
    || '\U{1740}' <= c <= '\U{1751}'
    || '\U{1760}' <= c <= '\U{176C}'
    || '\U{176E}' <= c <= '\U{1770}'
    || '\U{1780}' <= c <= '\U{17B3}'
    || c == '\U{17D7}'
    || c == '\U{17DC}'
  }

  predicate WordBlock7(c: char) {
    || '\U{17E0}' <= c <= '\U{17E9}'
    || '\U{17F0}' <= c <= '\U{17F9}'
    || '\U{1810}' <= c <= '\U{1819}'
    || '\U{1820}' <= c <= '\U{1878}'
    || '\U{1880}' <= c <= '\U{1884}'
    || '\U{1887}' <= c <= '\U{18A8}'
    || c == '\U{18AA}'
    || '\U{18B0}' <= c <= '\U{18F5}'
    || '\U{1900}' <= c <= '\U{191E}'
    || '\U{1946}' <= c <= '\U{196D}'
    || '\U{1970}' <= c <= '\U{1974}'
    || '\U{1980}' <= c <= '\U{19AB}'
    || '\U{19B0}' <= c <= '\U{19C9}'
    || '\U{19D0}' <= c <= '\U{19DA}'
    || '\U{1A00}' <= c <= '\U{1A16}'
    || '\U{1A20}' <= c <= '\U{1A54}'
    || '\U{1A80}' <= c <= '\U{1A89}'
    || '\U{1A90}' <= c <= '\U{1A99}'
    || c == '\U{1AA7}'
    || '\U{1B05}' <= c <= '\U{1B33}'
    || '\U{1B45}' <= c <= '\U{1B4C}'
    || '\U{1B50}' <= c <= '\U{1B59}'
    || '\U{1B83}' <= c <= '\U{1BA0}'
    || '\U{1BAE}' <= c <= '\U{1BE5}'
    || '\U{1C00}' <= c <= '\U{1C23}'
    || '\U{1C40}' <= c <= '\U{1C49}'
    || '\U{1C4D}' <= c <= '\U{1C7D}'
    || '\U{1C80}' <= c <= '\U{1C88}'
    || '\U{1C90}' <= c <= '\U{1CBA}'
    || '\U{1CBD}' <= c <= '\U{1CBF}'
    || '\U{1CE9}' <= c <= '\U{1CEC}'
    || '\U{1CEE}' <= c <= '\U{1CF3}'
  }

  predicate WordBlock8(c: char) {
    || '\U{1CF5}' <= c <= '\U{1CF6}'
    || c == '\U{1CFA}'
    || '\U{1D00}' <= c <= '\U{1DBF}'
    || '\U{1E00}' <= c <= '\U{1F15}'
    || '\U{1F18}' <= c <= '\U{1F1D}'
    || '\U{1F20}' <= c <= '\U{1F45}'
    || '\U{1F48}' <= c <= '\U{1F4D}'
    || '\U{1F50}' <= c <= '\U{1F57}'
    || c == '\U{1F59}'
    || c == '\U{1F5B}'
    || c == '\U{1F5D}'
    || '\U{1F5F}' <= c <= '\U{1F7D}'
    || '\U{1F80}' <= c <= '\U{1FB4}'
    || '\U{1FB6}' <= c <= '\U{1FBC}'
    || c == '\U{1FBE}'
    || '\U{1FC2}' <= c <= '\U{1FC4}'
    || '\U{1FC6}' <= c <= '\U{1FCC}'
    || '\U{1FD0}' <= c <= '\U{1FD3}'
    || '\U{1FD6}' <= c <= '\U{1FDB}'
    || '\U{1FE0}' <= c <= '\U{1FEC}'
    || '\U{1FF2}' <= c <= '\U{1FF4}'
    || '\U{1FF6}' <= c <= '\U{1FFC}'
    || '\U{2070}' <= c <= '\U{2071}'
    || '\U{2074}' <= c <= '\U{2079}'
    || '\U{207F}' <= c <= '\U{2089}'
    || '\U{2090}' <= c <= '\U{209C}'
    || c == '\U{2102}'
    || c == '\U{2107}'
    || '\U{210A}' <= c <= '\U{2113}'
    || c == '\U{2115}'
    || '\U{2119}' <= c <= '\U{211D}'
    || c == '\U{2124}'
  }

  predicate WordBlock9(c: char) {
    || c == '\U{2126}'
    || c == '\U{2128}'
    || '\U{212A}' <= c <= '\U{212D}'
    || '\U{212F}' <= c <= '\U{2139}'
    || '\U{213C}' <= c <= '\U{213F}'
    || '\U{2145}' <= c <= '\U{2149}'
    || c == '\U{214E}'
    || '\U{2150}' <= c <= '\U{2189}'
    || '\U{2460}' <= c <= '\U{249B}'
    || '\U{24EA}' <= c <= '\U{24FF}'
    || '\U{2776}' <= c <= '\U{2793}'
    || '\U{2C00}' <= c <= '\U{2CE4}'
    || '\U{2CEB}' <= c <= '\U{2CEE}'
    || '\U{2CF2}' <= c <= '\U{2CF3}'
    || c == '\U{2CFD}'
    || '\U{2D00}' <= c <= '\U{2D25}'
    || c == '\U{2D27}'
    || c == '\U{2D2D}'
    || '\U{2D30}' <= c <= '\U{2D67}'
    || c == '\U{2D6F}'
    || '\U{2D80}' <= c <= '\U{2D96}'
    || '\U{2DA0}' <= c <= '\U{2DA6}'
    || '\U{2DA8}' <= c <= '\U{2DAE}'
    || '\U{2DB0}' <= c <= '\U{2DB6}'
    || '\U{2DB8}' <= c <= '\U{2DBE}'
    || '\U{2DC0}' <= c <= '\U{2DC6}'
    || '\U{2DC8}' <= c <= '\U{2DCE}'
    || '\U{2DD0}' <= c <= '\U{2DD6}'
    || '\U{2DD8}' <= c <= '\U{2DDE}'
    || c == '\U{2E2F}'
    || '\U{3005}' <= c <= '\U{3007}'
    || '\U{3021}' <= c <= '\U{3029}'
  }

  predicate WordBlock10(c: char) {
    || '\U{3031}' <= c <= '\U{3035}'
    || '\U{3038}' <= c <= '\U{303C}'
    || '\U{3041}' <= c <= '\U{3096}'
    || '\U{309D}' <= c <= '\U{309F}'
    || '\U{30A1}' <= c <= '\U{30FA}'
    || '\U{30FC}' <= c <= '\U{30FF}'
    || '\U{3105}' <= c <= '\U{312F}'
    || '\U{3131}' <= c <= '\U{318E}'
    || '\U{3192}' <= c <= '\U{3195}'
    || '\U{31A0}' <= c <= '\U{31BF}'
    || '\U{31F0}' <= c <= '\U{31FF}'
    || '\U{3220}' <= c <= '\U{3229}'
    || '\U{3248}' <= c <= '\U{324F}'
    || '\U{3251}' <= c <= '\U{325F}'
    || '\U{3280}' <= c <= '\U{3289}'
    || '\U{32B1}' <= c <= '\U{32BF}'
    || '\U{3400}' <= c <= '\U{4DBF}'
    || '\U{4E00}' <= c <= '\U{A48C}'
    || '\U{A4D0}' <= c <= '\U{A4FD}'
    || '\U{A500}' <= c <= '\U{A60C}'
    || '\U{A610}' <= c <= '\U{A62B}'
    || '\U{A640}' <= c <= '\U{A66E}'
    || '\U{A67F}' <= c <= '\U{A69D}'
    || '\U{A6A0}' <= c <= '\U{A6EF}'
    || '\U{A717}' <= c <= '\U{A71F}'
    || '\U{A722}' <= c <= '\U{A788}'
    || '\U{A78B}' <= c <= '\U{A7CA}'
    || '\U{A7D0}' <= c <= '\U{A7D1}'
    || c == '\U{A7D3}'
    || '\U{A7D5}' <= c <= '\U{A7D9}'
    || '\U{A7F2}' <= c <= '\U{A801}'
    || '\U{A803}' <= c <= '\U{A805}'
  }

  predicate WordBlock11(c: char) {
    || '\U{A807}' <= c <= '\U{A80A}'
    || '\U{A80C}' <= c <= '\U{A822}'
    || '\U{A830}' <= c <= '\U{A835}'
    || '\U{A840}' <= c <= '\U{A873}'
    || '\U{A882}' <= c <= '\U{A8B3}'
    || '\U{A8D0}' <= c <= '\U{A8D9}'
    || '\U{A8F2}' <= c <= '\U{A8F7}'
    || c == '\U{A8FB}'
    || '\U{A8FD}' <= c <= '\U{A8FE}'
    || '\U{A900}' <= c <= '\U{A925}'
    || '\U{A930}' <= c <= '\U{A946}'
    || '\U{A960}' <= c <= '\U{A97C}'
    || '\U{A984}' <= c <= '\U{A9B2}'
    || '\U{A9CF}' <= c <= '\U{A9D9}'
    || '\U{A9E0}' <= c <= '\U{A9E4}'
    || '\U{A9E6}' <= c <= '\U{A9FE}'
    || '\U{AA00}' <= c <= '\U{AA28}'
    || '\U{AA40}' <= c <= '\U{AA42}'
    || '\U{AA44}' <= c <= '\U{AA4B}'
    || '\U{AA50}' <= c <= '\U{AA59}'
    || '\U{AA60}' <= c <= '\U{AA76}'
    || c == '\U{AA7A}'
    || '\U{AA7E}' <= c <= '\U{AAAF}'
    || c == '\U{AAB1}'
    || '\U{AAB5}' <= c <= '\U{AAB6}'
    || '\U{AAB9}' <= c <= '\U{AABD}'
    || c == '\U{AAC0}'
    || c == '\U{AAC2}'
    || '\U{AADB}' <= c <= '\U{AADD}'
    || '\U{AAE0}' <= c <= '\U{AAEA}'
    || '\U{AAF2}' <= c <= '\U{AAF4}'
    || '\U{AB01}' <= c <= '\U{AB06}'
  }

  predicate WordBlock12(c: char) {
    || '\U{AB09}' <= c <= '\U{AB0E}'
    || '\U{AB11}' <= c <= '\U{AB16}'
    || '\U{AB20}' <= c <= '\U{AB26}'
    || '\U{AB28}' <= c <= '\U{AB2E}'
    || '\U{AB30}' <= c <= '\U{AB5A}'
    || '\U{AB5C}' <= c <= '\U{AB69}'
    || '\U{AB70}' <= c <= '\U{ABE2}'
    || '\U{ABF0}' <= c <= '\U{ABF9}'
    || '\U{AC00}' <= c <= '\U{D7A3}'
    || '\U{D7B0}' <= c <= '\U{D7C6}'
    || '\U{D7CB}' <= c <= '\U{D7FB}'
    || '\U{F900}' <= c <= '\U{FA6D}'
    || '\U{FA70}' <= c <= '\U{FAD9}'
    || '\U{FB00}' <= c <= '\U{FB06}'
    || '\U{FB13}' <= c <= '\U{FB17}'
    || c == '\U{FB1D}'
    || '\U{FB1F}' <= c <= '\U{FB28}'
    || '\U{FB2A}' <= c <= '\U{FB36}'
    || '\U{FB38}' <= c <= '\U{FB3C}'
    || c == '\U{FB3E}'
    || '\U{FB40}' <= c <= '\U{FB41}'
    || '\U{FB43}' <= c <= '\U{FB44}'
    || '\U{FB46}' <= c <= '\U{FBB1}'
    || '\U{FBD3}' <= c <= '\U{FD3D}'
    || '\U{FD50}' <= c <= '\U{FD8F}'
    || '\U{FD92}' <= c <= '\U{FDC7}'
    || '\U{FDF0}' <= c <= '\U{FDFB}'
    || '\U{FE70}' <= c <= '\U{FE74}'
    || '\U{FE76}' <= c <= '\U{FEFC}'
    || '\U{FF10}' <= c <= '\U{FF19}'
    || '\U{FF21}' <= c <= '\U{FF3A}'
    || '\U{FF41}' <= c <= '\U{FF5A}'
  }

  predicate WordBlock13(c: char) {
    || '\U{FF66}' <= c <= '\U{FFBE}'
    || '\U{FFC2}' <= c <= '\U{FFC7}'
    || '\U{FFCA}' <= c <= '\U{FFCF}'
    || '\U{FFD2}' <= c <= '\U{FFD7}'
    || '\U{FFDA}' <= c <= '\U{FFDC}'
    || '\U{10000}' <= c <= '\U{1000B}'
    || '\U{1000D}' <= c <= '\U{10026}'
    || '\U{10028}' <= c <= '\U{1003A}'
    || '\U{1003C}' <= c <= '\U{1003D}'
    || '\U{1003F}' <= c <= '\U{1004D}'
    || '\U{10050}' <= c <= '\U{1005D}'
    || '\U{10080}' <= c <= '\U{100FA}'
    || '\U{10107}' <= c <= '\U{10133}'
    || '\U{10140}' <= c <= '\U{10178}'
    || '\U{1018A}' <= c <= '\U{1018B}'
    || '\U{10280}' <= c <= '\U{1029C}'
    || '\U{102A0}' <= c <= '\U{102D0}'
    || '\U{102E1}' <= c <= '\U{102FB}'
    || '\U{10300}' <= c <= '\U{10323}'
    || '\U{1032D}' <= c <= '\U{1034A}'
    || '\U{10350}' <= c <= '\U{10375}'
    || '\U{10380}' <= c <= '\U{1039D}'
    || '\U{103A0}' <= c <= '\U{103C3}'
    || '\U{103C8}' <= c <= '\U{103CF}'
    || '\U{103D1}' <= c <= '\U{103D5}'
    || '\U{10400}' <= c <= '\U{1049D}'
    || '\U{104A0}' <= c <= '\U{104A9}'
    || '\U{104B0}' <= c <= '\U{104D3}'
    || '\U{104D8}' <= c <= '\U{104FB}'
    || '\U{10500}' <= c <= '\U{10527}'
    || '\U{10530}' <= c <= '\U{10563}'
    || '\U{10570}' <= c <= '\U{1057A}'
  }

  predicate WordBlock14(c: char) {
    || '\U{1057C}' <= c <= '\U{1058A}'
    || '\U{1058C}' <= c <= '\U{10592}'
    || '\U{10594}' <= c <= '\U{10595}'
    || '\U{10597}' <= c <= '\U{105A1}'
    || '\U{105A3}' <= c <= '\U{105B1}'
    || '\U{105B3}' <= c <= '\U{105B9}'
    || '\U{105BB}' <= c <= '\U{105BC}'
    || '\U{10600}' <= c <= '\U{10736}'
    || '\U{10740}' <= c <= '\U{10755}'
    || '\U{10760}' <= c <= '\U{10767}'
    || '\U{10780}' <= c <= '\U{10785}'
    || '\U{10787}' <= c <= '\U{107B0}'
    || '\U{107B2}' <= c <= '\U{107BA}'
    || '\U{10800}' <= c <= '\U{10805}'
    || c == '\U{10808}'
    || '\U{1080A}' <= c <= '\U{10835}'
    || '\U{10837}' <= c <= '\U{10838}'
    || c == '\U{1083C}'
    || '\U{1083F}' <= c <= '\U{10855}'
    || '\U{10858}' <= c <= '\U{10876}'
    || '\U{10879}' <= c <= '\U{1089E}'
    || '\U{108A7}' <= c <= '\U{108AF}'
    || '\U{108E0}' <= c <= '\U{108F2}'
    || '\U{108F4}' <= c <= '\U{108F5}'
    || '\U{108FB}' <= c <= '\U{1091B}'
    || '\U{10920}' <= c <= '\U{10939}'
    || '\U{10980}' <= c <= '\U{109B7}'
    || '\U{109BC}' <= c <= '\U{109CF}'
    || '\U{109D2}' <= c <= '\U{10A00}'
    || '\U{10A10}' <= c <= '\U{10A13}'
    || '\U{10A15}' <= c <= '\U{10A17}'
    || '\U{10A19}' <= c <= '\U{10A35}'
  }

  predicate WordBlock15(c: char) {
    || '\U{10A40}' <= c <= '\U{10A48}'
    || '\U{10A60}' <= c <= '\U{10A7E}'
    || '\U{10A80}' <= c <= '\U{10A9F}'
    || '\U{10AC0}' <= c <= '\U{10AC7}'
    || '\U{10AC9}' <= c <= '\U{10AE4}'
    || '\U{10AEB}' <= c <= '\U{10AEF}'
    || '\U{10B00}' <= c <= '\U{10B35}'
    || '\U{10B40}' <= c <= '\U{10B55}'
    || '\U{10B58}' <= c <= '\U{10B72}'
    || '\U{10B78}' <= c <= '\U{10B91}'
    || '\U{10BA9}' <= c <= '\U{10BAF}'
    || '\U{10C00}' <= c <= '\U{10C48}'
    || '\U{10C80}' <= c <= '\U{10CB2}'
    || '\U{10CC0}' <= c <= '\U{10CF2}'
    || '\U{10CFA}' <= c <= '\U{10D23}'
    || '\U{10D30}' <= c <= '\U{10D39}'
    || '\U{10E60}' <= c <= '\U{10E7E}'
    || '\U{10E80}' <= c <= '\U{10EA9}'
    || '\U{10EB0}' <= c <= '\U{10EB1}'
    || '\U{10F00}' <= c <= '\U{10F27}'
    || '\U{10F30}' <= c <= '\U{10F45}'
    || '\U{10F51}' <= c <= '\U{10F54}'
    || '\U{10F70}' <= c <= '\U{10F81}'
    || '\U{10FB0}' <= c <= '\U{10FCB}'
    || '\U{10FE0}' <= c <= '\U{10FF6}'
    || '\U{11003}' <= c <= '\U{11037}'
    || '\U{11052}' <= c <= '\U{1106F}'
    || '\U{11071}' <= c <= '\U{11072}'
    || c == '\U{11075}'
    || '\U{11083}' <= c <= '\U{110AF}'
    || '\U{110D0}' <= c <= '\U{110E8}'
    || '\U{110F0}' <= c <= '\U{110F9}'
  }

  predicate WordBlock16(c: char) {
    || '\U{11103}' <= c <= '\U{11126}'
    || '\U{11136}' <= c <= '\U{1113F}'
    || c == '\U{11144}'
    || c == '\U{11147}'
    || '\U{11150}' <= c <= '\U{11172}'
    || c == '\U{11176}'
    || '\U{11183}' <= c <= '\U{111B2}'
    || '\U{111C1}' <= c <= '\U{111C4}'
    || '\U{111D0}' <= c <= '\U{111DA}'
    || c == '\U{111DC}'
    || '\U{111E1}' <= c <= '\U{111F4}'
    || '\U{11200}' <= c <= '\U{11211}'
    || '\U{11213}' <= c <= '\U{1122B}'
    || '\U{1123F}' <= c <= '\U{11240}'
    || '\U{11280}' <= c <= '\U{11286}'
    || c == '\U{11288}'
    || '\U{1128A}' <= c <= '\U{1128D}'
    || '\U{1128F}' <= c <= '\U{1129D}'
    || '\U{1129F}' <= c <= '\U{112A8}'
    || '\U{112B0}' <= c <= '\U{112DE}'
    || '\U{112F0}' <= c <= '\U{112F9}'
    || '\U{11305}' <= c <= '\U{1130C}'
    || '\U{1130F}' <= c <= '\U{11310}'
    || '\U{11313}' <= c <= '\U{11328}'
    || '\U{1132A}' <= c <= '\U{11330}'
    || '\U{11332}' <= c <= '\U{11333}'
    || '\U{11335}' <= c <= '\U{11339}'
    || c == '\U{1133D}'
    || c == '\U{11350}'
    || '\U{1135D}' <= c <= '\U{11361}'
    || '\U{11400}' <= c <= '\U{11434}'
    || '\U{11447}' <= c <= '\U{1144A}'
  }

  predicate WordBlock17(c: char) {
    || '\U{11450}' <= c <= '\U{11459}'
    || '\U{1145F}' <= c <= '\U{11461}'
    || '\U{11480}' <= c <= '\U{114AF}'
    || '\U{114C4}' <= c <= '\U{114C5}'
    || c == '\U{114C7}'
    || '\U{114D0}' <= c <= '\U{114D9}'
    || '\U{11580}' <= c <= '\U{115AE}'
    || '\U{115D8}' <= c <= '\U{115DB}'
    || '\U{11600}' <= c <= '\U{1162F}'
    || c == '\U{11644}'
    || '\U{11650}' <= c <= '\U{11659}'
    || '\U{11680}' <= c <= '\U{116AA}'
    || c == '\U{116B8}'
    || '\U{116C0}' <= c <= '\U{116C9}'
    || '\U{11700}' <= c <= '\U{1171A}'
    || '\U{11730}' <= c <= '\U{1173B}'
    || '\U{11740}' <= c <= '\U{11746}'
    || '\U{11800}' <= c <= '\U{1182B}'
    || '\U{118A0}' <= c <= '\U{118F2}'
    || '\U{118FF}' <= c <= '\U{11906}'
    || c == '\U{11909}'
    || '\U{1190C}' <= c <= '\U{11913}'
    || '\U{11915}' <= c <= '\U{11916}'
    || '\U{11918}' <= c <= '\U{1192F}'
    || c == '\U{1193F}'
    || c == '\U{11941}'
    || '\U{11950}' <= c <= '\U{11959}'
    || '\U{119A0}' <= c <= '\U{119A7}'
    || '\U{119AA}' <= c <= '\U{119D0}'
    || c == '\U{119E1}'
    || c == '\U{119E3}'
    || c == '\U{11A00}'
  }

  predicate WordBlock18(c: char) {
    || '\U{11A0B}' <= c <= '\U{11A32}'
    || c == '\U{11A3A}'
    || c == '\U{11A50}'
    || '\U{11A5C}' <= c <= '\U{11A89}'
    || c == '\U{11A9D}'
    || '\U{11AB0}' <= c <= '\U{11AF8}'
    || '\U{11C00}' <= c <= '\U{11C08}'
    || '\U{11C0A}' <= c <= '\U{11C2E}'
    || c == '\U{11C40}'
    || '\U{11C50}' <= c <= '\U{11C6C}'
    || '\U{11C72}' <= c <= '\U{11C8F}'
    || '\U{11D00}' <= c <= '\U{11D06}'
    || '\U{11D08}' <= c <= '\U{11D09}'
    || '\U{11D0B}' <= c <= '\U{11D30}'
    || c == '\U{11D46}'
    || '\U{11D50}' <= c <= '\U{11D59}'
    || '\U{11D60}' <= c <= '\U{11D65}'
    || '\U{11D67}' <= c <= '\U{11D68}'
    || '\U{11D6A}' <= c <= '\U{11D89}'
    || c == '\U{11D98}'
    || '\U{11DA0}' <= c <= '\U{11DA9}'
    || '\U{11EE0}' <= c <= '\U{11EF2}'
    || c == '\U{11F02}'
    || '\U{11F04}' <= c <= '\U{11F10}'
    || '\U{11F12}' <= c <= '\U{11F33}'
    || '\U{11F50}' <= c <= '\U{11F59}'
    || c == '\U{11FB0}'
    || '\U{11FC0}' <= c <= '\U{11FD4}'
    || '\U{12000}' <= c <= '\U{12399}'
    || '\U{12400}' <= c <= '\U{1246E}'
    || '\U{12480}' <= c <= '\U{12543}'
    || '\U{12F90}' <= c <= '\U{12FF0}'
  }

  predicate WordBlock19(c: char) {
    || '\U{13000}' <= c <= '\U{1342F}'
    || '\U{13441}' <= c <= '\U{13446}'
    || '\U{14400}' <= c <= '\U{14646}'
    || '\U{16800}' <= c <= '\U{16A38}'
    || '\U{16A40}' <= c <= '\U{16A5E}'
    || '\U{16A60}' <= c <= '\U{16A69}'
    || '\U{16A70}' <= c <= '\U{16ABE}'
    || '\U{16AC0}' <= c <= '\U{16AC9}'
    || '\U{16AD0}' <= c <= '\U{16AED}'
    || '\U{16B00}' <= c <= '\U{16B2F}'
    || '\U{16B40}' <= c <= '\U{16B43}'
    || '\U{16B50}' <= c <= '\U{16B59}'
    || '\U{16B5B}' <= c <= '\U{16B61}'
    || '\U{16B63}' <= c <= '\U{16B77}'
    || '\U{16B7D}' <= c <= '\U{16B8F}'
    || '\U{16E40}' <= c <= '\U{16E96}'
    || '\U{16F00}' <= c <= '\U{16F4A}'
    || c == '\U{16F50}'
    || '\U{16F93}' <= c <= '\U{16F9F}'
    || '\U{16FE0}' <= c <= '\U{16FE1}'
    || c == '\U{16FE3}'
    || '\U{17000}' <= c <= '\U{187F7}'
    || '\U{18800}' <= c <= '\U{18CD5}'
    || '\U{18D00}' <= c <= '\U{18D08}'
    || '\U{1AFF0}' <= c <= '\U{1AFF3}'
    || '\U{1AFF5}' <= c <= '\U{1AFFB}'
    || '\U{1AFFD}' <= c <= '\U{1AFFE}'
    || '\U{1B000}' <= c <= '\U{1B122}'
    || c == '\U{1B132}'
    || '\U{1B150}' <= c <= '\U{1B152}'
    || c == '\U{1B155}'
    || '\U{1B164}' <= c <= '\U{1B167}'
  }

  predicate WordBlock20(c: char) {
    || '\U{1B170}' <= c <= '\U{1B2FB}'
    || '\U{1BC00}' <= c <= '\U{1BC6A}'
    || '\U{1BC70}' <= c <= '\U{1BC7C}'
    || '\U{1BC80}' <= c <= '\U{1BC88}'
    || '\U{1BC90}' <= c <= '\U{1BC99}'
    || '\U{1D2C0}' <= c <= '\U{1D2D3}'
    || '\U{1D2E0}' <= c <= '\U{1D2F3}'
    || '\U{1D360}' <= c <= '\U{1D378}'
    || '\U{1D400}' <= c <= '\U{1D454}'
    || '\U{1D456}' <= c <= '\U{1D49C}'
    || '\U{1D49E}' <= c <= '\U{1D49F}'
    || c == '\U{1D4A2}'
    || '\U{1D4A5}' <= c <= '\U{1D4A6}'
    || '\U{1D4A9}' <= c <= '\U{1D4AC}'
    || '\U{1D4AE}' <= c <= '\U{1D4B9}'
    || c == '\U{1D4BB}'
    || '\U{1D4BD}' <= c <= '\U{1D4C3}'
    || '\U{1D4C5}' <= c <= '\U{1D505}'
    || '\U{1D507}' <= c <= '\U{1D50A}'
    || '\U{1D50D}' <= c <= '\U{1D514}'
    || '\U{1D516}' <= c <= '\U{1D51C}'
    || '\U{1D51E}' <= c <= '\U{1D539}'
    || '\U{1D53B}' <= c <= '\U{1D53E}'
    || '\U{1D540}' <= c <= '\U{1D544}'
    || c == '\U{1D546}'
    || '\U{1D54A}' <= c <= '\U{1D550}'
    || '\U{1D552}' <= c <= '\U{1D6A5}'
    || '\U{1D6A8}' <= c <= '\U{1D6C0}'
    || '\U{1D6C2}' <= c <= '\U{1D6DA}'
    || '\U{1D6DC}' <= c <= '\U{1D6FA}'
    || '\U{1D6FC}' <= c <= '\U{1D714}'
    || '\U{1D716}' <= c <= '\U{1D734}'
  }

  predicate WordBlock21(c: char) {
    || '\U{1D736}' <= c <= '\U{1D74E}'
    || '\U{1D750}' <= c <= '\U{1D76E}'
    || '\U{1D770}' <= c <= '\U{1D788}'
    || '\U{1D78A}' <= c <= '\U{1D7A8}'
    || '\U{1D7AA}' <= c <= '\U{1D7C2}'
    || '\U{1D7C4}' <= c <= '\U{1D7CB}'
    || '\U{1D7CE}' <= c <= '\U{1D7FF}'
    || '\U{1DF00}' <= c <= '\U{1DF1E}'
    || '\U{1DF25}' <= c <= '\U{1DF2A}'
    || '\U{1E030}' <= c <= '\U{1E06D}'
    || '\U{1E100}' <= c <= '\U{1E12C}'
    || '\U{1E137}' <= c <= '\U{1E13D}'
    || '\U{1E140}' <= c <= '\U{1E149}'
    || c == '\U{1E14E}'
    || '\U{1E290}' <= c <= '\U{1E2AD}'
    || '\U{1E2C0}' <= c <= '\U{1E2EB}'
    || '\U{1E2F0}' <= c <= '\U{1E2F9}'
    || '\U{1E4D0}' <= c <= '\U{1E4EB}'
    || '\U{1E4F0}' <= c <= '\U{1E4F9}'
    || '\U{1E7E0}' <= c <= '\U{1E7E6}'
    || '\U{1E7E8}' <= c <= '\U{1E7EB}'
    || '\U{1E7ED}' <= c <= '\U{1E7EE}'
    || '\U{1E7F0}' <= c <= '\U{1E7FE}'
    || '\U{1E800}' <= c <= '\U{1E8C4}'
    || '\U{1E8C7}' <= c <= '\U{1E8CF}'
    || '\U{1E900}' <= c <= '\U{1E943}'
    || c == '\U{1E94B}'
    || '\U{1E950}' <= c <= '\U{1E959}'
    || '\U{1EC71}' <= c <= '\U{1ECAB}'
    || '\U{1ECAD}' <= c <= '\U{1ECAF}'
    || '\U{1ECB1}' <= c <= '\U{1ECB4}'
    || '\U{1ED01}' <= c <= '\U{1ED2D}'
  }

  predicate WordBlock22(c: char) {
    || '\U{1ED2F}' <= c <= '\U{1ED3D}'
    || '\U{1EE00}' <= c <= '\U{1EE03}'
    || '\U{1EE05}' <= c <= '\U{1EE1F}'
    || '\U{1EE21}' <= c <= '\U{1EE22}'
    || c == '\U{1EE24}'
    || c == '\U{1EE27}'
    || '\U{1EE29}' <= c <= '\U{1EE32}'
    || '\U{1EE34}' <= c <= '\U{1EE37}'
    || c == '\U{1EE39}'
    || c == '\U{1EE3B}'
    || c == '\U{1EE42}'
    || c == '\U{1EE47}'
    || c == '\U{1EE49}'
    || c == '\U{1EE4B}'
    || '\U{1EE4D}' <= c <= '\U{1EE4F}'
    || '\U{1EE51}' <= c <= '\U{1EE52}'
    || c == '\U{1EE54}'
    || c == '\U{1EE57}'
    || c == '\U{1EE59}'
    || c == '\U{1EE5B}'
    || c == '\U{1EE5D}'
    || c == '\U{1EE5F}'
    || '\U{1EE61}' <= c <= '\U{1EE62}'
    || c == '\U{1EE64}'
    || '\U{1EE67}' <= c <= '\U{1EE6A}'
    || '\U{1EE6C}' <= c <= '\U{1EE72}'
    || '\U{1EE74}' <= c <= '\U{1EE77}'
    || '\U{1EE79}' <= c <= '\U{1EE7C}'
    || c == '\U{1EE7E}'
    || '\U{1EE80}' <= c <= '\U{1EE89}'
    || '\U{1EE8B}' <= c <= '\U{1EE9B}'
    || '\U{1EEA1}' <= c <= '\U{1EEA3}'
  }

  predicate WordBlock23(c: char) {
    || '\U{1EEA5}' <= c <= '\U{1EEA9}'
    || '\U{1EEAB}' <= c <= '\U{1EEBB}'
    || '\U{1F100}' <= c <= '\U{1F10C}'
    || '\U{1FBF0}' <= c <= '\U{1FBF9}'
    || '\U{20000}' <= c <= '\U{2A6DF}'
    || '\U{2A700}' <= c <= '\U{2B739}'
    || '\U{2B740}' <= c <= '\U{2B81D}'
    || '\U{2B820}' <= c <= '\U{2CEA1}'
    || '\U{2CEB0}' <= c <= '\U{2EBE0}'
    || '\U{2F800}' <= c <= '\U{2FA1D}'
    || '\U{30000}' <= c <= '\U{3134A}'
    || '\U{31350}' <= c <= '\U{323AF}'
  }

  /** No whitespace character is a word character; the split by code point keeps each case
      to the blocks it can meet. */
  lemma SpaceNotWordChar(c: char)
    requires IsSpace(c)
    ensures !IsPyWordChar(c)
  {
    if c < '\U{80}' {
    } else if c < '\U{2000}' {
    } else {
    }
  }

  /** The regex class `[0-9a-fA-F]`. */
  predicate IsHexDigit(c: char) { '0' <= c <= '9' || 'a' <= c <= 'f' || 'A' <= c <= 'F' }

  // ---------------------------------------------------------------- stripping

  /** `s.lstrip()`. */
  function LStrip(s: string): (r: string)
    ensures |r| <= |s|
    ensures r == [] || !IsSpace(r[0])
  {
    if s != [] && IsSpace(s[0]) then LStrip(s[1..]) else s
  }

  /** `lstrip` removes leading whitespace and nothing else: what it drops is whitespace and
      what it keeps is the rest of `s`. */
  lemma {:induction false} LStripIsSuffix(s: string)
    ensures LStrip(s) == s[|s| - |LStrip(s)|..]
    ensures forall j :: 0 <= j < |s| - |LStrip(s)| ==> IsSpace(s[j])
    decreases |s|
  {
    if s != [] && IsSpace(s[0]) {
      LStripIsSuffix(s[1..]);
      assert forall j :: 1 <= j < |s| ==> s[j] == s[1..][j - 1];
    }
  }

  /** `s.rstrip()`. */
  function RStrip(s: string): (r: string)
    ensures |r| <= |s|
    ensures r == [] || !IsSpace(r[|r| - 1])
    ensures r == [] || r[0] == s[0]
  {
    if s != [] && IsSpace(s[|s| - 1]) then RStrip(s[..|s| - 1]) else s
  }

  /** `rstrip` removes trailing whitespace and nothing else. */
  lemma {:induction false} RStripIsPrefix(s: string)
    ensures RStrip(s) == s[..|RStrip(s)|]
    ensures forall j :: |RStrip(s)| <= j < |s| ==> IsSpace(s[j])
    decreases |s|
  {
    if s != [] && IsSpace(s[|s| - 1]) {
      RStripIsPrefix(s[..|s| - 1]);
    }
  }

  /** What `strip` leaves is a piece of the original text. */
  lemma StripInside(s: string, c: char)
    requires c in Strip(s)
    ensures c in s
  {
    LStripIsSuffix(s);
    RStripIsPrefix(LStrip(s));
  }

  /** `s.strip()`: no whitespace left at either end. */
  function Strip(s: string): (r: string)
    ensures |r| <= |s|
    ensures r == [] || (!IsSpace(r[0]) && !IsSpace(r[|r| - 1]))
  {
    RStrip(LStrip(s))
  }

  /** `strip` removes whitespace at both ends and nothing else: the result is the piece of `s`
      between a whitespace prefix and a whitespace suffix. */
  lemma StripRemovesOnlyEnds(s: string)
    ensures var r, k := Strip(s), |s| - |LStrip(s)|;
      && r == s[k..k + |r|]
      && (forall j :: 0 <= j < k ==> IsSpace(s[j]))
      && (forall j :: k + |r| <= j < |s| ==> IsSpace(s[j]))
  {
    var t := LStrip(s);
    var r := RStrip(t);
    var k := |s| - |t|;
    LStripIsSuffix(s);
    RStripIsPrefix(t);
    assert t == s[k..];
    assert r == t[..|r|];
    assert r == s[k..k + |r|];
    forall j | k + |r| <= j < |s|
      ensures IsSpace(s[j])
    {
      assert s[j] == t[j - k];
    }
  }

  lemma LStripOfStripped(s: string)
    requires s == [] || !IsSpace(s[0])
    ensures LStrip(s) == s
  {
  }

  lemma StripOfStripped(s: string)
    requires s == [] || (!IsSpace(s[0]) && !IsSpace(s[|s| - 1]))
    ensures Strip(s) == s
  {
  }

  /** A text of whitespace only. */
  predicate AllSpace(s: string) {
    forall i :: 0 <= i < |s| ==> IsSpace(s[i])
  }

  /** Leading whitespace before a text that starts with a non-space is stripped away exactly. */
  lemma {:induction false} LStripPadded(a: string, x: string)
    requires AllSpace(a) && (x == [] || !IsSpace(x[0]))
    ensures LStrip(a + x) == x
    decreases |a|
  {
    if a != [] {
      assert (a + x)[1..] == a[1..] + x;
      LStripPadded(a[1..], x);
    } else {
      assert a + x == x;
    }
  }

  /** Trailing whitespace after a text that ends with a non-space is stripped away exactly. */
  lemma {:induction false} RStripPadded(x: string, b: string)
    requires AllSpace(b) && (x == [] || !IsSpace(x[|x| - 1]))
    ensures RStrip(x + b) == x
    decreases |b|
  {
    if b != [] {
      assert (x + b)[..|x + b| - 1] == x + b[..|b| - 1];
      RStripPadded(x, b[..|b| - 1]);
    } else {
      assert x + b == x;
    }
  }

  /** `strip()` removes exactly the padding around a stripped text. */
  lemma StripPadded(a: string, x: string, b: string)
    requires AllSpace(a) && AllSpace(b)
    requires x == [] || (!IsSpace(x[0]) && !IsSpace(x[|x| - 1]))
    ensures Strip(a + x + b) == x
  {
    if x == [] {
      assert a + x + b == (a + b) + [];
      LStripPadded(a + b, []);
    } else {
      assert a + x + b == a + (x + b);
      LStripPadded(a, x + b);
      RStripPadded(x, b);
    }
  }

  // ---------------------------------------------------------------- case

  /** ASCII case mapping, which is all the keyword tests below need. */
  function LowerChar(c: char): char {
    if 'A' <= c <= 'Z' then (c as int + 32) as char else c
  }

  function UpperChar(c: char): char {
    if 'a' <= c <= 'z' then (c as int - 32) as char else c
  }

  /** `s.lower()` restricted to ASCII letters. */
  function Lower(s: string): (r: string)
    ensures |r| == |s| && forall i :: 0 <= i < |s| ==> r[i] == LowerChar(s[i])
  {
    seq(|s|, i requires 0 <= i < |s| => LowerChar(s[i]))
  }

  /** `s.upper()` restricted to ASCII letters. */
  function Upper(s: string): (r: string)
    ensures |r| == |s| && forall i :: 0 <= i < |s| ==> r[i] == UpperChar(s[i])
  {
    seq(|s|, i requires 0 <= i < |s| => UpperChar(s[i]))
  }

  lemma LowerAppend(a: string, b: string)
    ensures Lower(a + b) == Lower(a) + Lower(b)
  {
    assert forall i :: 0 <= i < |a + b| ==> Lower(a + b)[i] == (Lower(a) + Lower(b))[i];
  }

  // ---------------------------------------------------------------- searching

  /** `s.startswith(p)`. */
  predicate StartsWith(s: string, p: string) {
    |p| <= |s| && s[..|p|] == p
  }

  /** `s.endswith(p)`. */
  predicate EndsWith(s: string, p: string) {
    |p| <= |s| && s[|s| - |p|..] == p
  }

  /** `p in s`. */
  predicate Contains(s: string, p: string)
    decreases |s|
  {
    StartsWith(s, p) || (s != [] && Contains(s[1..], p))
  }

  /** `s.find(p)`: the first index at which `p` occurs, or -1. */
  function Find(s: string, p: string): (r: int)
    ensures r == -1 || 0 <= r <= |s| - |p|
    ensures r >= 0 <==> Contains(s, p)
    ensures r >= 0 ==> StartsWith(s[r..], p)
    ensures r >= 0 ==> forall j :: 0 <= j < r ==> !StartsWith(s[j..], p)
    decreases |s|
  {
    if StartsWith(s, p) then 0
    else if s == [] then -1
    else
      var k := Find(s[1..], p);
      assert forall j :: 1 <= j <= |s| ==> s[j..] == s[1..][j - 1..];
      if k < 0 then -1 else k + 1
  }

  /** The first index of `c` in `s`, or -1. */
  function IndexOf(s: string, c: char): (r: int)
    ensures r == -1 <==> c !in s
    ensures r >= 0 ==> r < |s| && s[r] == c && c !in s[..r]
  {
    if s == [] then -1
    else if s[0] == c then 0
    else
      var k := IndexOf(s[1..], c);
      if k < 0 then -1
      else
        assert s[..k + 1] == [s[0]] + s[1..][..k];
        k + 1
  }

  /** `s.rfind(c)`: the last index of `c` in `s`, or -1. */
  function LastIndexOf(s: string, c: char): (r: int)
    ensures -1 <= r < |s|
    ensures r == -1 <==> c !in s
    ensures r >= 0 ==> r < |s| && s[r] == c && c !in s[r + 1..]
    decreases |s|
  {
    if s == [] then -1
    else if s[|s| - 1] == c then |s| - 1
    else
      assert s == s[..|s| - 1] + [s[|s| - 1]];
      LastIndexOf(s[..|s| - 1], c)
  }

  /** Appending text without `c` does not move the last `c`. */
  lemma {:induction false} LastIndexOfAppend(a: string, b: string, c: char)
    requires c !in b
    ensures LastIndexOf(a + b, c) == LastIndexOf(a, c)
    decreases |b|
  {
    if b == [] {
      assert a + b == a;
    } else {
      assert (a + b)[..|a + b| - 1] == a + b[..|b| - 1];
      LastIndexOfAppend(a, b[..|b| - 1], c);
    }
  }

  /** The last `c` of `a + [c] + b`, when `b` has none, is the one after `a`. */
  /** The first occurrence of `c` in `a + [c] + b`, when `a` has none, is the one after `a`. */
  lemma IndexOfAfter(a: string, c: char, b: string)
    requires c !in a
    ensures IndexOf(a + [c] + b, c) == |a|
  {
    var s := a + [c] + b;
    assert s[|a|] == c && s[..|a|] == a;
  }

  lemma LastIndexOfAfter(a: string, c: char, b: string)
    requires c !in b
    ensures LastIndexOf(a + [c] + b, c) == |a|
  {
    LastIndexOfAppend(a + [c], b, c);
    assert (a + [c])[|a|] == c;
  }

  /** An occurrence at a known position. */
  lemma {:induction false} ContainsAt(s: string, p: string, i: nat)
    requires i + |p| <= |s| && s[i..i + |p|] == p
    ensures Contains(s, p)
    decreases i
  {
    if i > 0 {
      assert s[1..][i - 1..i - 1 + |p|] == s[i..i + |p|];
      ContainsAt(s[1..], p, i - 1);
    }
  }

  /** A suffix that starts with `p` puts `p` in the text. */
  lemma ContainsFrom(s: string, p: string, i: nat)
    requires i <= |s| && StartsWith(s[i..], p)
    ensures Contains(s, p)
  {
    assert s[i..i + |p|] == s[i..][..|p|];
    ContainsAt(s, p, i);
  }

  lemma ShortNotContains(s: string, p: string)
    requires |s| < |p|
    ensures !Contains(s, p)
    decreases |s|
  {
  }

  lemma ContainsPrefix(a: string, b: string, p: string)
    requires Contains(a, p)
    ensures Contains(a + b, p)
    decreases |a|
  {
    if StartsWith(a, p) {
      assert (a + b)[..|p|] == a[..|p|];
    } else {
      assert a != [];
      assert (a + b)[1..] == a[1..] + b;
      ContainsPrefix(a[1..], b, p);
    }
  }

  lemma {:induction false} ContainsSuffix(a: string, b: string, p: string)
    requires Contains(b, p)
    ensures Contains(a + b, p)
    decreases |a|
  {
    if a == [] {
      assert a + b == b;
    } else {
      assert (a + b)[1..] == a[1..] + b;
      ContainsSuffix(a[1..], b, p);
    }
  }

  lemma ContainsInner(a: string, p: string, q: string)
    requires Contains(a, p + q)
    ensures Contains(a, p)
    decreases |a|
  {
    if StartsWith(a, p + q) {
      assert a[..|p|] == (p + q)[..|p|];
    } else {
      ContainsInner(a[1..], p, q);
    }
  }

  // ---------------------------------------------------------------- tokens

  /** No character of `w` is whitespace. */
  predicate NoSpace(w: string) {
    forall j :: 0 <= j < |w| ==> !IsSpace(w[j])
  }

  /** A non-empty run of non-space characters. */
  predicate IsWord(w: string) {
    w != [] && NoSpace(w)
  }

  /** The maximal run of non-space characters at the front of `s`. */
  function TakeWord(s: string): (w: string)
    ensures |w| <= |s| && w == s[..|w|]
    ensures NoSpace(w)
    ensures |w| < |s| ==> IsSpace(s[|w|])
    ensures s != [] && !IsSpace(s[0]) ==> |w| > 0
  {
    if s == [] || IsSpace(s[0]) then [] else [s[0]] + TakeWord(s[1..])
  }

  /** `s` with its first token and the whitespace before it removed. */
  function DropToken(s: string): (r: string)
    ensures |r| <= |s|
    ensures LStrip(s) != [] ==> |r| < |s|
  {
    var t := LStrip(s);
    t[|TakeWord(t)|..]
  }

  /** `s.split()`: the maximal runs of non-space characters, in order. */
  function Tokens(s: string): (r: seq<string>)
    ensures forall i :: 0 <= i < |r| ==> IsWord(r[i])
    decreases |s|
  {
    var t := LStrip(s);
    if t == [] then []
    else
      var w, rest := TakeWord(t), Tokens(DropToken(s));
      assert IsWord(w);
      assert forall i :: 0 < i <= |rest| ==> ([w] + rest)[i] == rest[i - 1];
      [w] + rest
  }

  /** A word runs up to the first whitespace. */
  lemma {:induction false} TakeWordOf(w: string, s: string)
    requires NoSpace(w) && (s == [] || IsSpace(s[0]))
    ensures TakeWord(w + s) == w
    decreases |w|
  {
    if w == [] {
      assert w + s == s;
    } else {
      assert (w + s)[1..] == w[1..] + s;
      TakeWordOf(w[1..], s);
    }
  }

  /** A leading word followed by whitespace (or nothing) is the first token. */
  lemma TokensCons(w: string, s: string)
    requires IsWord(w) && (s == [] || IsSpace(s[0]))
    ensures Tokens(w + s) == [w] + Tokens(s)
  {
    var t := w + s;
    assert !IsSpace(t[0]);
    LStripOfStripped(t);
    TakeWordOf(w, s);
    assert t[|w|..] == s;
  }

  lemma TokensOfSpaced(s: string)
    ensures Tokens(" " + s) == Tokens(s)
  {
    TokensOfLStrip(" " + s);
    TokensOfLStrip(s);
    assert (" " + s)[1..] == s;
  }

  /** `(a + " " + b).split() == [a] + b.split()` for a word `a`. */
  lemma TokensOfJoin(a: string, b: string)
    requires IsWord(a)
    ensures Tokens(a + " " + b) == [a] + Tokens(b)
  {
    assert a + " " + b == a + (" " + b);
    TokensCons(a, " " + b);
    TokensOfSpaced(b);
  }

  lemma TokensOfWord(w: string)
    requires IsWord(w)
    ensures Tokens(w) == [w]
  {
    assert w + "" == w;
    TokensCons(w, "");
  }

  /** A text that starts with a non-space character has a first token. */
  lemma TokensNonEmpty(s: string)
    requires s != [] && !IsSpace(s[0])
    ensures |Tokens(s)| >= 1 && Tokens(s)[0] == TakeWord(s)
  {
    LStripOfStripped(s);
  }

  /** What is left of `s` after its first `n` tokens, with leading whitespace removed. */
  function AfterTokens(s: string, n: nat): string
    decreases n
  {
    if n == 0 then LStrip(s) else AfterTokens(DropToken(s), n - 1)
  }

  lemma TokensOfLStrip(s: string)
    ensures Tokens(LStrip(s)) == Tokens(s)
  {
    LStripOfStripped(LStrip(s));
  }

  /** The text after the first `n` tokens splits into exactly the remaining tokens. */
  lemma {:induction false} TokensAfter(s: string, n: nat)
    requires n <= |Tokens(s)|
    ensures Tokens(AfterTokens(s, n)) == Tokens(s)[n..]
    decreases n
  {
    if n == 0 {
      TokensOfLStrip(s);
    } else {
      var t := LStrip(s);
      assert t != [];
      assert Tokens(s) == [TakeWord(t)] + Tokens(DropToken(s));
      TokensAfter(DropToken(s), n - 1);
    }
  }

  // ---------------------------------------------------------------- lines and fields

  /** Line boundaries: `str.splitlines()` breaks on all of these; a text file read in
      universal-newline mode only on `\n`, `\r` and `\r\n`. */
  predicate IsLineBreak(c: char, fileMode: bool) {
    || c == '\n' || c == '\r'
    || (!fileMode && (c == '\U{0B}' || c == '\U{0C}' || '\U{1C}' <= c <= '\U{1E}'
                      || c == '\U{85}' || c == '\U{2028}' || c == '\U{2029}'))
  }

  function LinesFrom(s: string, cur: string, fileMode: bool): (r: seq<string>)
    decreases |s|
  {
    if s == [] then (if cur == [] then [] else [cur])
    else if IsLineBreak(s[0], fileMode) then
      var rest := if s[0] == '\r' && |s| > 1 && s[1] == '\n' then s[2..] else s[1..];
      [cur] + LinesFrom(rest, [], fileMode)
    else LinesFrom(s[1..], cur + [s[0]], fileMode)
  }

  /** `s.splitlines()`. */
  function SplitLines(s: string): seq<string> {
    LinesFrom(s, [], false)
  }

  /** The lines of a text file as `for line in f` yields them, line ends dropped. */
  function FileLines(s: string): seq<string> {
    LinesFrom(s, [], true)
  }

  /** `Path.read_text()` of a file holding `s`: universal-newline mode turns every `\r\n`, and
      every `\r` on its own, into `\n`. What it returns holds no `\r`. */
  function ReadText(s: string): (r: string)
    ensures |r| <= |s|
    ensures '\r' !in r
    decreases |s|
  {
    if s == [] then []
    else if s[0] == '\r' then "\n" + ReadText(if |s| > 1 && s[1] == '\n' then s[2..] else s[1..])
    else [s[0]] + ReadText(s[1..])
  }

  /** A text without `\r` reads back unchanged; in particular reading twice is reading once. */
  lemma {:induction false} ReadTextWithoutCR(s: string)
    requires '\r' !in s
    ensures ReadText(s) == s
    decreases |s|
  {
    if s != [] {
      ReadTextWithoutCR(s[1..]);
    }
  }

  /** Reading works piece by piece, unless the first piece ends inside a `\r\n`. */
  lemma {:induction false} ReadTextAppend(a: string, b: string)
    requires a == [] || a[|a| - 1] != '\r'
    ensures ReadText(a + b) == ReadText(a) + ReadText(b)
    decreases |a|
  {
    if a == [] {
      assert a + b == b;
    } else if a[0] == '\r' {
      assert |a| > 1;
      var rest := if a[1] == '\n' then a[2..] else a[1..];
      assert (a + b)[1] == a[1];
      assert (if a[1] == '\n' then (a + b)[2..] else (a + b)[1..]) == rest + b;
      ReadTextAppend(rest, b);
    } else {
      assert (a + b)[1..] == a[1..] + b;
      ReadTextAppend(a[1..], b);
    }
  }

  /** A prefix that does not end in `\r` stays a prefix when both are read back. */
  lemma ReadTextPrefix(head: string, s: string)
    requires StartsWith(s, head) && (head == [] || head[|head| - 1] != '\r')
    ensures StartsWith(ReadText(s), ReadText(head))
  {
    var tail := s[|head|..];
    assert s == head + tail;
    ReadTextAppend(head, tail);
    assert ReadText(s)[..|ReadText(head)|] == ReadText(head);
  }

  /** `s.split(c)`: the pieces between occurrences of `c` (at least one, possibly empty). */
  function SplitOn(s: string, c: char): (r: seq<string>)
    ensures |r| >= 1
    ensures forall i :: 0 <= i < |r| ==> c !in r[i]
    decreases |s|
  {
    var i := IndexOf(s, c);
    if i < 0 then [s] else [s[..i]] + SplitOn(s[i + 1..], c)
  }

  lemma SplitOnCons(a: string, rest: string, c: char)
    requires c !in a
    ensures SplitOn(a + [c] + rest, c) == [a] + SplitOn(rest, c)
  {
    var s := a + [c] + rest;
    assert s[|a|] == c && s[..|a|] == a;
    assert IndexOf(s, c) == |a|;
    assert s[|a| + 1..] == rest;
  }

  lemma SplitOnNone(s: string, c: char)
    requires c !in s
    ensures SplitOn(s, c) == [s]
  {
  }

  /** `s.split(c)[0]`: the text before the first `c`. */
  function BeforeChar(s: string, c: char): (r: string)
    ensures c !in r && StartsWith(s, r)
    ensures r == s <==> c !in s
  {
    var i := IndexOf(s, c);
    if i < 0 then s else s[..i]
  }

  /** `s[a:b]` for non-negative bounds: clamped, empty when `b <= a`. */
  function PySlice(s: string, a: nat, b: nat): (r: string)
    ensures |r| <= |s|
  {
    if a >= |s| || b <= a then [] else s[a..if b < |s| then b else |s|]
  }

  // ---------------------------------------------------------------- regular-expression search

  /** `re.search`: the leftmost position at which the pattern matches, or -1. `at(t)` is what
      the pattern's group captures when the pattern matches at the start of `t`. */
  function SearchIndex(text: string, at: string -> Option<string>): (k: int)
    ensures -1 <= k <= |text|
    ensures k >= 0 ==> at(text[k..]).Some? && forall j :: 0 <= j < k ==> at(text[j..]).None?
    ensures k == -1 <==> forall j :: 0 <= j <= |text| ==> at(text[j..]).None?
    decreases |text|
  {
    if at(text).Some? then
      assert text[0..] == text;
      0
    else if text == [] then -1
    else
      var k := SearchIndex(text[1..], at);
      assert forall j :: 1 <= j <= |text| ==> text[j..] == text[1..][j - 1..];
      assert text[0..] == text;
      if k < 0 then -1 else k + 1
  }

  /** The group of the leftmost match, or None. */
  function Search(text: string, at: string -> Option<string>): (r: Option<string>)
    ensures r.Some? <==> exists k :: 0 <= k <= |text| && at(text[k..]).Some?
  {
    var k := SearchIndex(text, at);
    if k < 0 then None else at(text[k..])
  }

  /** The maximal run of characters of class `cls` at the front of `s`: a greedy `[...]*`. */
  function TakeWhile(s: string, cls: char -> bool): (w: string)
    ensures |w| <= |s| && w == s[..|w|]
    ensures forall j :: 0 <= j < |w| ==> cls(w[j])
    ensures |w| < |s| ==> !cls(s[|w|])
  {
    if s == [] || !cls(s[0]) then [] else [s[0]] + TakeWhile(s[1..], cls)
  }

  /** `TakeWhile` stops exactly at the end of a run. */
  lemma {:induction false} TakeWhileRun(v: string, post: string, cls: char -> bool)
    requires forall j :: 0 <= j < |v| ==> cls(v[j])
    requires post == [] || !cls(post[0])
    ensures TakeWhile(v + post, cls) == v
    decreases |v|
  {
    if v == [] {
      assert v + post == post;
    } else {
      assert (v + post)[1..] == v[1..] + post;
      TakeWhileRun(v[1..], post, cls);
    }
  }

  /** A match with no match before it is the one found. */
  lemma SearchFirst(text: string, at: string -> Option<string>, k: int)
    requires 0 <= k <= |text| && at(text[k..]).Some?
    requires forall j :: 0 <= j < k ==> at(text[j..]).None?
    ensures Search(text, at) == at(text[k..])
  {
  }

  // ---------------------------------------------------------------- numbers

  function DigitChar(d: nat): (c: char)
    requires d < 10
    ensures IsDigit(c)
  {
    ('0' as int + d) as char
  }

  /** `str(n)` for a natural number. */
  function NatToString(n: nat): (r: string)
    ensures r != [] && forall i :: 0 <= i < |r| ==> IsDigit(r[i])
  {
    if n < 10 then [DigitChar(n)] else NatToString(n / 10) + [DigitChar(n % 10)]
  }

  /** The value of a decimal digit. */
  function DigitValue(c: char): (d: nat)
    requires IsDigit(c)
    ensures d < 10
  {
    c as int - '0' as int
  }

  predicate AllDigits(s: string) {
    forall i :: 0 <= i < |s| ==> IsDigit(s[i])
  }

  /** `int(s, 10)` for a string of ASCII digits (leading zeros allowed). */
  function DecimalValue(s: string): nat
    requires AllDigits(s)
    decreases |s|
  {
    if s == [] then 0 else DecimalValue(s[..|s| - 1]) * 10 + DigitValue(s[|s| - 1])
  }

  /** `int(str(n)) == n`. */
  lemma {:induction false} DecimalOfNatToString(n: nat)
    ensures AllDigits(NatToString(n)) && DecimalValue(NatToString(n)) == n
  {
    var s := NatToString(n);
    if n < 10 {
      assert s[..0] == [];
    } else {
      DecimalOfNatToString(n / 10);
      assert s[..|s| - 1] == NatToString(n / 10);
    }
  }

  /** `str(n)` has no leading zero. */
  lemma {:induction false} NatToStringNoLeadingZero(n: nat)
    ensures NatToString(n)[0] == '0' <==> n == 0
  {
    if n >= 10 {
      NatToStringNoLeadingZero(n / 10);
      assert NatToString(n)[0] == NatToString(n / 10)[0];
    }
  }

  /** Numbers below 1000 have at most three digits. */
  lemma NatToStringShort(n: nat)
    requires n < 1000
    ensures |NatToString(n)| <= 3
  {
    if n >= 10 {
      var m := n / 10;
      assert m < 100;
      if m >= 10 {
        assert m / 10 < 10;
        assert |NatToString(m / 10)| == 1;
        assert |NatToString(m)| == 2;
      }
    }
  }
}

