/** The lookup tables of the codec (gff_base and gflog_base, 256 entries each, kept here as
    sixteen rows of sixteen), the two table-driven field operations, and their agreement
    with the field. */
module Tables {
  import opened Field

  // ----- gff_base

  function Gff0(j: int): byte {
    if j == 0 then 0x01 else if j == 1 then 0x02 else if j == 2 then 0x04 else if j == 3 then 0x08 else if j == 4 then 0x10 else if j == 5 then 0x20 else
    if j == 6 then 0x40 else if j == 7 then 0x80 else if j == 8 then 0x1d else if j == 9 then 0x3a else if j == 10 then 0x74 else if j == 11 then 0xe8 else
    if j == 12 then 0xcd else if j == 13 then 0x87 else if j == 14 then 0x13 else 0x26
  }
  function Gff1(j: int): byte {
    if j == 0 then 0x4c else if j == 1 then 0x98 else if j == 2 then 0x2d else if j == 3 then 0x5a else if j == 4 then 0xb4 else if j == 5 then 0x75 else
    if j == 6 then 0xea else if j == 7 then 0xc9 else if j == 8 then 0x8f else if j == 9 then 0x03 else if j == 10 then 0x06 else if j == 11 then 0x0c else
    if j == 12 then 0x18 else if j == 13 then 0x30 else if j == 14 then 0x60 else 0xc0
  }
  function Gff2(j: int): byte {
    if j == 0 then 0x9d else if j == 1 then 0x27 else if j == 2 then 0x4e else if j == 3 then 0x9c else if j == 4 then 0x25 else if j == 5 then 0x4a else
    if j == 6 then 0x94 else if j == 7 then 0x35 else if j == 8 then 0x6a else if j == 9 then 0xd4 else if j == 10 then 0xb5 else if j == 11 then 0x77 else
    if j == 12 then 0xee else if j == 13 then 0xc1 else if j == 14 then 0x9f else 0x23
  }
  function Gff3(j: int): byte {
    if j == 0 then 0x46 else if j == 1 then 0x8c else if j == 2 then 0x05 else if j == 3 then 0x0a else if j == 4 then 0x14 else if j == 5 then 0x28 else
    if j == 6 then 0x50 else if j == 7 then 0xa0 else if j == 8 then 0x5d else if j == 9 then 0xba else if j == 10 then 0x69 else if j == 11 then 0xd2 else
    if j == 12 then 0xb9 else if j == 13 then 0x6f else if j == 14 then 0xde else 0xa1
  }
  function Gff4(j: int): byte {
    if j == 0 then 0x5f else if j == 1 then 0xbe else if j == 2 then 0x61 else if j == 3 then 0xc2 else if j == 4 then 0x99 else if j == 5 then 0x2f else
    if j == 6 then 0x5e else if j == 7 then 0xbc else if j == 8 then 0x65 else if j == 9 then 0xca else if j == 10 then 0x89 else if j == 11 then 0x0f else
    if j == 12 then 0x1e else if j == 13 then 0x3c else if j == 14 then 0x78 else 0xf0
  }
  function Gff5(j: int): byte {
    if j == 0 then 0xfd else if j == 1 then 0xe7 else if j == 2 then 0xd3 else if j == 3 then 0xbb else if j == 4 then 0x6b else if j == 5 then 0xd6 else
    if j == 6 then 0xb1 else if j == 7 then 0x7f else if j == 8 then 0xfe else if j == 9 then 0xe1 else if j == 10 then 0xdf else if j == 11 then 0xa3 else
    if j == 12 then 0x5b else if j == 13 then 0xb6 else if j == 14 then 0x71 else 0xe2
  }
  function Gff6(j: int): byte {
    if j == 0 then 0xd9 else if j == 1 then 0xaf else if j == 2 then 0x43 else if j == 3 then 0x86 else if j == 4 then 0x11 else if j == 5 then 0x22 else
    if j == 6 then 0x44 else if j == 7 then 0x88 else if j == 8 then 0x0d else if j == 9 then 0x1a else if j == 10 then 0x34 else if j == 11 then 0x68 else
    if j == 12 then 0xd0 else if j == 13 then 0xbd else if j == 14 then 0x67 else 0xce
  }
  function Gff7(j: int): byte {
    if j == 0 then 0x81 else if j == 1 then 0x1f else if j == 2 then 0x3e else if j == 3 then 0x7c else if j == 4 then 0xf8 else if j == 5 then 0xed else
    if j == 6 then 0xc7 else if j == 7 then 0x93 else if j == 8 then 0x3b else if j == 9 then 0x76 else if j == 10 then 0xec else if j == 11 then 0xc5 else
    if j == 12 then 0x97 else if j == 13 then 0x33 else if j == 14 then 0x66 else 0xcc
  }
  function Gff8(j: int): byte {
    if j == 0 then 0x85 else if j == 1 then 0x17 else if j == 2 then 0x2e else if j == 3 then 0x5c else if j == 4 then 0xb8 else if j == 5 then 0x6d else
    if j == 6 then 0xda else if j == 7 then 0xa9 else if j == 8 then 0x4f else if j == 9 then 0x9e else if j == 10 then 0x21 else if j == 11 then 0x42 else
    if j == 12 then 0x84 else if j == 13 then 0x15 else if j == 14 then 0x2a else 0x54
  }
  function Gff9(j: int): byte {
    if j == 0 then 0xa8 else if j == 1 then 0x4d else if j == 2 then 0x9a else if j == 3 then 0x29 else if j == 4 then 0x52 else if j == 5 then 0xa4 else
    if j == 6 then 0x55 else if j == 7 then 0xaa else if j == 8 then 0x49 else if j == 9 then 0x92 else if j == 10 then 0x39 else if j == 11 then 0x72 else
    if j == 12 then 0xe4 else if j == 13 then 0xd5 else if j == 14 then 0xb7 else 0x73
  }
  function GffA(j: int): byte {
    if j == 0 then 0xe6 else if j == 1 then 0xd1 else if j == 2 then 0xbf else if j == 3 then 0x63 else if j == 4 then 0xc6 else if j == 5 then 0x91 else
    if j == 6 then 0x3f else if j == 7 then 0x7e else if j == 8 then 0xfc else if j == 9 then 0xe5 else if j == 10 then 0xd7 else if j == 11 then 0xb3 else
    if j == 12 then 0x7b else if j == 13 then 0xf6 else if j == 14 then 0xf1 else 0xff
  }
  function GffB(j: int): byte {
    if j == 0 then 0xe3 else if j == 1 then 0xdb else if j == 2 then 0xab else if j == 3 then 0x4b else if j == 4 then 0x96 else if j == 5 then 0x31 else
    if j == 6 then 0x62 else if j == 7 then 0xc4 else if j == 8 then 0x95 else if j == 9 then 0x37 else if j == 10 then 0x6e else if j == 11 then 0xdc else
    if j == 12 then 0xa5 else if j == 13 then 0x57 else if j == 14 then 0xae else 0x41
  }
  function GffC(j: int): byte {
    if j == 0 then 0x82 else if j == 1 then 0x19 else if j == 2 then 0x32 else if j == 3 then 0x64 else if j == 4 then 0xc8 else if j == 5 then 0x8d else
    if j == 6 then 0x07 else if j == 7 then 0x0e else if j == 8 then 0x1c else if j == 9 then 0x38 else if j == 10 then 0x70 else if j == 11 then 0xe0 else
    if j == 12 then 0xdd else if j == 13 then 0xa7 else if j == 14 then 0x53 else 0xa6
  }
  function GffD(j: int): byte {
    if j == 0 then 0x51 else if j == 1 then 0xa2 else if j == 2 then 0x59 else if j == 3 then 0xb2 else if j == 4 then 0x79 else if j == 5 then 0xf2 else
    if j == 6 then 0xf9 else if j == 7 then 0xef else if j == 8 then 0xc3 else if j == 9 then 0x9b else if j == 10 then 0x2b else if j == 11 then 0x56 else
    if j == 12 then 0xac else if j == 13 then 0x45 else if j == 14 then 0x8a else 0x09
  }
  function GffE(j: int): byte {
    if j == 0 then 0x12 else if j == 1 then 0x24 else if j == 2 then 0x48 else if j == 3 then 0x90 else if j == 4 then 0x3d else if j == 5 then 0x7a else
    if j == 6 then 0xf4 else if j == 7 then 0xf5 else if j == 8 then 0xf7 else if j == 9 then 0xf3 else if j == 10 then 0xfb else if j == 11 then 0xeb else
    if j == 12 then 0xcb else if j == 13 then 0x8b else if j == 14 then 0x0b else 0x16
  }
  function GffF(j: int): byte {
    if j == 0 then 0x2c else if j == 1 then 0x58 else if j == 2 then 0xb0 else if j == 3 then 0x7d else if j == 4 then 0xfa else if j == 5 then 0xe9 else
    if j == 6 then 0xcf else if j == 7 then 0x83 else if j == 8 then 0x1b else if j == 9 then 0x36 else if j == 10 then 0x6c else if j == 11 then 0xd8 else
    if j == 12 then 0xad else if j == 13 then 0x47 else if j == 14 then 0x8e else 0x01
  }

  function Gff(i: int): byte {
    if i < 128 then
      if i < 64 then
        if i < 32 then
          if i < 16 then Gff0(i - 0) else Gff1(i - 16)
        else
          if i < 48 then Gff2(i - 32) else Gff3(i - 48)
      else
        if i < 96 then
          if i < 80 then Gff4(i - 64) else Gff5(i - 80)
        else
          if i < 112 then Gff6(i - 96) else Gff7(i - 112)
    else
      if i < 192 then
        if i < 160 then
          if i < 144 then Gff8(i - 128) else Gff9(i - 144)
        else
          if i < 176 then GffA(i - 160) else GffB(i - 176)
      else
        if i < 224 then
          if i < 208 then GffC(i - 192) else GffD(i - 208)
        else
          if i < 240 then GffE(i - 224) else GffF(i - 240)
  }

  // ----- gflog_base

  function Gflog0(j: int): int {
    if j == 0 then 0 else if j == 1 then 255 else if j == 2 then 1 else if j == 3 then 25 else if j == 4 then 2 else if j == 5 then 50 else
    if j == 6 then 26 else if j == 7 then 198 else if j == 8 then 3 else if j == 9 then 223 else if j == 10 then 51 else if j == 11 then 238 else
    if j == 12 then 27 else if j == 13 then 104 else if j == 14 then 199 else 75
  }
  function Gflog1(j: int): int {
    if j == 0 then 4 else if j == 1 then 100 else if j == 2 then 224 else if j == 3 then 14 else if j == 4 then 52 else if j == 5 then 141 else
    if j == 6 then 239 else if j == 7 then 129 else if j == 8 then 28 else if j == 9 then 193 else if j == 10 then 105 else if j == 11 then 248 else
    if j == 12 then 200 else if j == 13 then 8 else if j == 14 then 76 else 113
  }
  function Gflog2(j: int): int {
    if j == 0 then 5 else if j == 1 then 138 else if j == 2 then 101 else if j == 3 then 47 else if j == 4 then 225 else if j == 5 then 36 else
    if j == 6 then 15 else if j == 7 then 33 else if j == 8 then 53 else if j == 9 then 147 else if j == 10 then 142 else if j == 11 then 218 else
    if j == 12 then 240 else if j == 13 then 18 else if j == 14 then 130 else 69
  }
  function Gflog3(j: int): int {
    if j == 0 then 29 else if j == 1 then 181 else if j == 2 then 194 else if j == 3 then 125 else if j == 4 then 106 else if j == 5 then 39 else
    if j == 6 then 249 else if j == 7 then 185 else if j == 8 then 201 else if j == 9 then 154 else if j == 10 then 9 else if j == 11 then 120 else
    if j == 12 then 77 else if j == 13 then 228 else if j == 14 then 114 else 166
  }
  function Gflog4(j: int): int {
    if j == 0 then 6 else if j == 1 then 191 else if j == 2 then 139 else if j == 3 then 98 else if j == 4 then 102 else if j == 5 then 221 else
    if j == 6 then 48 else if j == 7 then 253 else if j == 8 then 226 else if j == 9 then 152 else if j == 10 then 37 else if j == 11 then 179 else
    if j == 12 then 16 else if j == 13 then 145 else if j == 14 then 34 else 136
  }
  function Gflog5(j: int): int {
    if j == 0 then 54 else if j == 1 then 208 else if j == 2 then 148 else if j == 3 then 206 else if j == 4 then 143 else if j == 5 then 150 else
    if j == 6 then 219 else if j == 7 then 189 else if j == 8 then 241 else if j == 9 then 210 else if j == 10 then 19 else if j == 11 then 92 else
    if j == 12 then 131 else if j == 13 then 56 else if j == 14 then 70 else 64
  }
  function Gflog6(j: int): int {
    if j == 0 then 30 else if j == 1 then 66 else if j == 2 then 182 else if j == 3 then 163 else if j == 4 then 195 else if j == 5 then 72 else
    if j == 6 then 126 else if j == 7 then 110 else if j == 8 then 107 else if j == 9 then 58 else if j == 10 then 40 else if j == 11 then 84 else
    if j == 12 then 250 else if j == 13 then 133 else if j == 14 then 186 else 61
  }
  function Gflog7(j: int): int {
    if j == 0 then 202 else if j == 1 then 94 else if j == 2 then 155 else if j == 3 then 159 else if j == 4 then 10 else if j == 5 then 21 else
    if j == 6 then 121 else if j == 7 then 43 else if j == 8 then 78 else if j == 9 then 212 else if j == 10 then 229 else if j == 11 then 172 else
    if j == 12 then 115 else if j == 13 then 243 else if j == 14 then 167 else 87
  }
  function Gflog8(j: int): int {
    if j == 0 then 7 else if j == 1 then 112 else if j == 2 then 192 else if j == 3 then 247 else if j == 4 then 140 else if j == 5 then 128 else
    if j == 6 then 99 else if j == 7 then 13 else if j == 8 then 103 else if j == 9 then 74 else if j == 10 then 222 else if j == 11 then 237 else
    if j == 12 then 49 else if j == 13 then 197 else if j == 14 then 254 else 24
  }
  function Gflog9(j: int): int {
    if j == 0 then 227 else if j == 1 then 165 else if j == 2 then 153 else if j == 3 then 119 else if j == 4 then 38 else if j == 5 then 184 else
    if j == 6 then 180 else if j == 7 then 124 else if j == 8 then 17 else if j == 9 then 68 else if j == 10 then 146 else if j == 11 then 217 else
    if j == 12 then 35 else if j == 13 then 32 else if j == 14 then 137 else 46
  }
  function GflogA(j: int): int {
    if j == 0 then 55 else if j == 1 then 63 else if j == 2 then 209 else if j == 3 then 91 else if j == 4 then 149 else if j == 5 then 188 else
    if j == 6 then 207 else if j == 7 then 205 else if j == 8 then 144 else if j == 9 then 135 else if j == 10 then 151 else if j == 11 then 178 else
    if j == 12 then 220 else if j == 13 then 252 else if j == 14 then 190 else 97
  }
  function GflogB(j: int): int {
    if j == 0 then 242 else if j == 1 then 86 else if j == 2 then 211 else if j == 3 then 171 else if j == 4 then 20 else if j == 5 then 42 else
    if j == 6 then 93 else if j == 7 then 158 else if j == 8 then 132 else if j == 9 then 60 else if j == 10 then 57 else if j == 11 then 83 else
    if j == 12 then 71 else if j == 13 then 109 else if j == 14 then 65 else 162
  }
  function GflogC(j: int): int {
    if j == 0 then 31 else if j == 1 then 45 else if j == 2 then 67 else if j == 3 then 216 else if j == 4 then 183 else if j == 5 then 123 else
    if j == 6 then 164 else if j == 7 then 118 else if j == 8 then 196 else if j == 9 then 23 else if j == 10 then 73 else if j == 11 then 236 else
    if j == 12 then 127 else if j == 13 then 12 else if j == 14 then 111 else 246
  }
  function GflogD(j: int): int {
    if j == 0 then 108 else if j == 1 then 161 else if j == 2 then 59 else if j == 3 then 82 else if j == 4 then 41 else if j == 5 then 157 else
    if j == 6 then 85 else if j == 7 then 170 else if j == 8 then 251 else if j == 9 then 96 else if j == 10 then 134 else if j == 11 then 177 else
    if j == 12 then 187 else if j == 13 then 204 else if j == 14 then 62 else 90
  }
  function GflogE(j: int): int {
    if j == 0 then 203 else if j == 1 then 89 else if j == 2 then 95 else if j == 3 then 176 else if j == 4 then 156 else if j == 5 then 169 else
    if j == 6 then 160 else if j == 7 then 81 else if j == 8 then 11 else if j == 9 then 245 else if j == 10 then 22 else if j == 11 then 235 else
    if j == 12 then 122 else if j == 13 then 117 else if j == 14 then 44 else 215
  }
  function GflogF(j: int): int {
    if j == 0 then 79 else if j == 1 then 174 else if j == 2 then 213 else if j == 3 then 233 else if j == 4 then 230 else if j == 5 then 231 else
    if j == 6 then 173 else if j == 7 then 232 else if j == 8 then 116 else if j == 9 then 214 else if j == 10 then 244 else if j == 11 then 234 else
    if j == 12 then 168 else if j == 13 then 80 else if j == 14 then 88 else 175
  }

  function Gflog(i: int): int {
    if i < 128 then
      if i < 64 then
        if i < 32 then
          if i < 16 then Gflog0(i - 0) else Gflog1(i - 16)
        else
          if i < 48 then Gflog2(i - 32) else Gflog3(i - 48)
      else
        if i < 96 then
          if i < 80 then Gflog4(i - 64) else Gflog5(i - 80)
        else
          if i < 112 then Gflog6(i - 96) else Gflog7(i - 112)
    else
      if i < 192 then
        if i < 160 then
          if i < 144 then Gflog8(i - 128) else Gflog9(i - 144)
        else
          if i < 176 then GflogA(i - 160) else GflogB(i - 176)
      else
        if i < 224 then
          if i < 208 then GflogC(i - 192) else GflogD(i - 208)
        else
          if i < 240 then GflogE(i - 224) else GflogF(i - 240)
  }

  // ----- the two tables, entry by entry

  /** The next entry is the doubled one, and the logarithm table maps the entry back. */
  predicate PowerOk(i: int) {
    && (i < 255 ==> Gff(i + 1) == Double(Gff(i)))
    && (0 < i ==> Gflog(Gff(i) as int) == i)
  }

  /** Every nonzero byte has a logarithm in 1..255. Entry 0 of gflog_base plays no part. */
  predicate LogOk(a: int) {
    0 < a ==> 1 <= Gflog(a) <= 255 && Gff(Gflog(a)) as int == a
  }

  lemma PowerRow0(i: int) requires 0 <= i < 16 ensures PowerOk(i) {}
  lemma PowerRow1(i: int) requires 16 <= i < 32 ensures PowerOk(i) {}
  lemma PowerRow2(i: int) requires 32 <= i < 48 ensures PowerOk(i) {}
  lemma PowerRow3(i: int) requires 48 <= i < 64 ensures PowerOk(i) {}
  lemma PowerRow4(i: int) requires 64 <= i < 80 ensures PowerOk(i) {}
  lemma PowerRow5(i: int) requires 80 <= i < 96 ensures PowerOk(i) {}
  lemma PowerRow6(i: int) requires 96 <= i < 112 ensures PowerOk(i) {}
  lemma PowerRow7(i: int) requires 112 <= i < 128 ensures PowerOk(i) {}
  lemma PowerRow8(i: int) requires 128 <= i < 144 ensures PowerOk(i) {}
  lemma PowerRow9(i: int) requires 144 <= i < 160 ensures PowerOk(i) {}
  lemma PowerRowA(i: int) requires 160 <= i < 176 ensures PowerOk(i) {}
  lemma PowerRowB(i: int) requires 176 <= i < 192 ensures PowerOk(i) {}
  lemma PowerRowC(i: int) requires 192 <= i < 208 ensures PowerOk(i) {}
  lemma PowerRowD(i: int) requires 208 <= i < 224 ensures PowerOk(i) {}
  lemma PowerRowE(i: int) requires 224 <= i < 240 ensures PowerOk(i) {}
  lemma PowerRowF(i: int) requires 240 <= i < 256 ensures PowerOk(i) {}

  lemma LogRow0(a: int) requires 0 <= a < 16 ensures LogOk(a) {}
  lemma LogRow1(a: int) requires 16 <= a < 32 ensures LogOk(a) {}
  lemma LogRow2(a: int) requires 32 <= a < 48 ensures LogOk(a) {}
  lemma LogRow3(a: int) requires 48 <= a < 64 ensures LogOk(a) {}
  lemma LogRow4(a: int) requires 64 <= a < 80 ensures LogOk(a) {}
  lemma LogRow5(a: int) requires 80 <= a < 96 ensures LogOk(a) {}
  lemma LogRow6(a: int) requires 96 <= a < 112 ensures LogOk(a) {}
  lemma LogRow7(a: int) requires 112 <= a < 128 ensures LogOk(a) {}
  lemma LogRow8(a: int) requires 128 <= a < 144 ensures LogOk(a) {}
  lemma LogRow9(a: int) requires 144 <= a < 160 ensures LogOk(a) {}
  lemma LogRowA(a: int) requires 160 <= a < 176 ensures LogOk(a) {}
  lemma LogRowB(a: int) requires 176 <= a < 192 ensures LogOk(a) {}
  lemma LogRowC(a: int) requires 192 <= a < 208 ensures LogOk(a) {}
  lemma LogRowD(a: int) requires 208 <= a < 224 ensures LogOk(a) {}
  lemma LogRowE(a: int) requires 224 <= a < 240 ensures LogOk(a) {}
  lemma LogRowF(a: int) requires 240 <= a < 256 ensures LogOk(a) {}

  lemma PowersOk(i: int)
    requires 0 <= i < 256
    ensures PowerOk(i)
  {
    hide *;
    if
    case 0 <= i < 16 => PowerRow0(i);
    case 16 <= i < 32 => PowerRow1(i);
    case 32 <= i < 48 => PowerRow2(i);
    case 48 <= i < 64 => PowerRow3(i);
    case 64 <= i < 80 => PowerRow4(i);
    case 80 <= i < 96 => PowerRow5(i);
    case 96 <= i < 112 => PowerRow6(i);
    case 112 <= i < 128 => PowerRow7(i);
    case 128 <= i < 144 => PowerRow8(i);
    case 144 <= i < 160 => PowerRow9(i);
    case 160 <= i < 176 => PowerRowA(i);
    case 176 <= i < 192 => PowerRowB(i);
    case 192 <= i < 208 => PowerRowC(i);
    case 208 <= i < 224 => PowerRowD(i);
    case 224 <= i < 240 => PowerRowE(i);
    case 240 <= i < 256 => PowerRowF(i);
  }

  lemma LogsOk(a: int)
    requires 0 <= a < 256
    ensures LogOk(a)
  {
    hide *;
    if
    case 0 <= a < 16 => LogRow0(a);
    case 16 <= a < 32 => LogRow1(a);
    case 32 <= a < 48 => LogRow2(a);
    case 48 <= a < 64 => LogRow3(a);
    case 64 <= a < 80 => LogRow4(a);
    case 80 <= a < 96 => LogRow5(a);
    case 96 <= a < 112 => LogRow6(a);
    case 112 <= a < 128 => LogRow7(a);
    case 128 <= a < 144 => LogRow8(a);
    case 144 <= a < 160 => LogRow9(a);
    case 160 <= a < 176 => LogRowA(a);
    case 176 <= a < 192 => LogRowB(a);
    case 192 <= a < 208 => LogRowC(a);
    case 208 <= a < 224 => LogRowD(a);
    case 224 <= a < 240 => LogRowE(a);
    case 240 <= a < 256 => LogRowF(a);
  }

  // ----- the tables and the field

  lemma {:induction false} GffIsPower2(i: nat)
    requires i < 256
    ensures Gff(i) == Power2(i)
  {
    if i == 0 {
    } else {
      hide Gff, Gflog, Double;
      GffIsPower2(i - 1);
      PowersOk(i - 1);
    }
  }

  /** 2 generates the whole multiplicative group: its powers 1..255 are distinct ... */
  lemma Power2Injective(i: nat, j: nat)
    requires 1 <= i <= 255 && 1 <= j <= 255
    requires Power2(i) == Power2(j)
    ensures i == j
  {
    hide Gff, Gflog, Power2, Double;
    GffIsPower2(i);
    GffIsPower2(j);
    PowersOk(i);
    PowersOk(j);
  }

  lemma LastPower()
    ensures Gff(255) == 1
  {
    hide Power2;
  }

  /** ... and its 255th power is 1. */
  lemma Power2Cycle(n: nat)
    ensures Power2(255) == 1
    ensures Power2(n + 255) == Power2(n)
  {
    hide Mul, Power2, Gff;
    GffIsPower2(255);
    LastPower();
    Power2Sum(n, 255);
    MulOne(Power2(n));
  }

  lemma Logarithm(a: byte)
    requires a != 0
    ensures 1 <= Gflog(a as int) <= 255 && Power2(Gflog(a as int)) == a
  {
    hide Gff, Gflog, Power2;
    LogsOk(a as int);
    GffIsPower2(Gflog(a as int));
  }

  // ----- the table-driven operations

  function GfMul(a: byte, b: byte): (p: byte)
    ensures p == Mul(a, b)
  {
    MulByTables(a, b);
    if a == 0 || b == 0 then
      0
    else
      var i := Gflog(a as int) + Gflog(b as int);
      Gff(if i > 254 then i - 255 else i)
  }

  lemma MulByTables(a: byte, b: byte)
    ensures a == 0 || b == 0 ==> Mul(a, b) == 0
    ensures a != 0 && b != 0 ==>
      var i := Gflog(a as int) + Gflog(b as int);
      Gff(if i > 254 then i - 255 else i) == Mul(a, b)
  {
    hide Gff, Gflog, Mul, Power2;
    if a == 0 || b == 0 {
      MulZero(a);
      MulZero(b);
    } else {
      var i := Gflog(a as int) + Gflog(b as int);
      Logarithm(a);
      Logarithm(b);
      Power2Sum(Gflog(a as int), Gflog(b as int));
      if i > 254 {
        Power2Cycle(i - 255);
        GffIsPower2(i - 255);
      } else {
        GffIsPower2(i);
      }
    }
  }

  /** The source returns 0 for 0. */
  function GfInv(a: byte): (v: byte)
    ensures a == 0 ==> v == 0
    ensures a != 0 ==> Mul(a, v) == 1
  {
    InvByTables(a);
    if a == 0 then 0 else Gff(255 - Gflog(a as int))
  }

  lemma InvByTables(a: byte)
    ensures a != 0 ==> Mul(a, Gff(255 - Gflog(a as int))) == 1
  {
    hide Gff, Gflog, Mul, Power2;
    if a != 0 {
      Logarithm(a);
      GffIsPower2(255 - Gflog(a as int));
      Power2Sum(Gflog(a as int), 255 - Gflog(a as int));
      Power2Cycle(0);
    }
  }

  // ----- division laws

  lemma InvNonzero(a: byte)
    requires a != 0
    ensures GfInv(a) != 0 && Mul(a, GfInv(a)) == 1 && Mul(GfInv(a), a) == 1
  {
    hide *;
    assert Mul(a, GfInv(a)) == 1;
    MulComm(a, GfInv(a));
    MulZero(a);
  }

  /** There are no zero divisors. */
  lemma MulNonzero(a: byte, b: byte)
    requires Mul(a, b) == 0
    ensures a == 0 || b == 0
  {
    hide *;
    if a != 0 {
      InvNonzero(a);
      MulAssoc(GfInv(a), a, b);
      MulOne(b);
      MulZero(GfInv(a));
    }
  }
}
