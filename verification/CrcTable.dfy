/** crc_table of FastDFS/common/hash.c, sixteen entries to a row, and the proof that every entry is the reflected
    CRC-32 remainder of its index: eight steps of the shift register with polynomial 0xEDB88320. */
module CrcTable {

  const POLYNOMIAL: bv32 := 0xEDB88320

  /** One step of the shift register. */
  function Shift(c: bv32): bv32 {
    if c & 1 == 1 then (c >> 1) ^ POLYNOMIAL else c >> 1
  }

  function Shift8(c: bv32): bv32 {
    Shift(Shift(Shift(Shift(Shift(Shift(Shift(Shift(c))))))))
  }

  function Row0(i: bv32): bv32 {
    if i == 0 then 0x00000000 else if i == 1 then 0x77073096
    else if i == 2 then 0xEE0E612C else if i == 3 then 0x990951BA
    else if i == 4 then 0x076DC419 else if i == 5 then 0x706AF48F
    else if i == 6 then 0xE963A535 else if i == 7 then 0x9E6495A3
    else if i == 8 then 0x0EDB8832 else if i == 9 then 0x79DCB8A4
    else if i == 10 then 0xE0D5E91E else if i == 11 then 0x97D2D988
    else if i == 12 then 0x09B64C2B else if i == 13 then 0x7EB17CBD
    else if i == 14 then 0xE7B82D07 else if i == 15 then 0x90BF1D91
    else 0
  }

  function Row1(i: bv32): bv32 {
    if i == 16 then 0x1DB71064 else if i == 17 then 0x6AB020F2
    else if i == 18 then 0xF3B97148 else if i == 19 then 0x84BE41DE
    else if i == 20 then 0x1ADAD47D else if i == 21 then 0x6DDDE4EB
    else if i == 22 then 0xF4D4B551 else if i == 23 then 0x83D385C7
    else if i == 24 then 0x136C9856 else if i == 25 then 0x646BA8C0
    else if i == 26 then 0xFD62F97A else if i == 27 then 0x8A65C9EC
    else if i == 28 then 0x14015C4F else if i == 29 then 0x63066CD9
    else if i == 30 then 0xFA0F3D63 else if i == 31 then 0x8D080DF5
    else 0
  }

  function Row2(i: bv32): bv32 {
    if i == 32 then 0x3B6E20C8 else if i == 33 then 0x4C69105E
    else if i == 34 then 0xD56041E4 else if i == 35 then 0xA2677172
    else if i == 36 then 0x3C03E4D1 else if i == 37 then 0x4B04D447
    else if i == 38 then 0xD20D85FD else if i == 39 then 0xA50AB56B
    else if i == 40 then 0x35B5A8FA else if i == 41 then 0x42B2986C
    else if i == 42 then 0xDBBBC9D6 else if i == 43 then 0xACBCF940
    else if i == 44 then 0x32D86CE3 else if i == 45 then 0x45DF5C75
    else if i == 46 then 0xDCD60DCF else if i == 47 then 0xABD13D59
    else 0
  }

  function Row3(i: bv32): bv32 {
    if i == 48 then 0x26D930AC else if i == 49 then 0x51DE003A
    else if i == 50 then 0xC8D75180 else if i == 51 then 0xBFD06116
    else if i == 52 then 0x21B4F4B5 else if i == 53 then 0x56B3C423
    else if i == 54 then 0xCFBA9599 else if i == 55 then 0xB8BDA50F
    else if i == 56 then 0x2802B89E else if i == 57 then 0x5F058808
    else if i == 58 then 0xC60CD9B2 else if i == 59 then 0xB10BE924
    else if i == 60 then 0x2F6F7C87 else if i == 61 then 0x58684C11
    else if i == 62 then 0xC1611DAB else if i == 63 then 0xB6662D3D
    else 0
  }

  function Row4(i: bv32): bv32 {
    if i == 64 then 0x76DC4190 else if i == 65 then 0x01DB7106
    else if i == 66 then 0x98D220BC else if i == 67 then 0xEFD5102A
    else if i == 68 then 0x71B18589 else if i == 69 then 0x06B6B51F
    else if i == 70 then 0x9FBFE4A5 else if i == 71 then 0xE8B8D433
    else if i == 72 then 0x7807C9A2 else if i == 73 then 0x0F00F934
    else if i == 74 then 0x9609A88E else if i == 75 then 0xE10E9818
    else if i == 76 then 0x7F6A0DBB else if i == 77 then 0x086D3D2D
    else if i == 78 then 0x91646C97 else if i == 79 then 0xE6635C01
    else 0
  }

  function Row5(i: bv32): bv32 {
    if i == 80 then 0x6B6B51F4 else if i == 81 then 0x1C6C6162
    else if i == 82 then 0x856530D8 else if i == 83 then 0xF262004E
    else if i == 84 then 0x6C0695ED else if i == 85 then 0x1B01A57B
    else if i == 86 then 0x8208F4C1 else if i == 87 then 0xF50FC457
    else if i == 88 then 0x65B0D9C6 else if i == 89 then 0x12B7E950
    else if i == 90 then 0x8BBEB8EA else if i == 91 then 0xFCB9887C
    else if i == 92 then 0x62DD1DDF else if i == 93 then 0x15DA2D49
    else if i == 94 then 0x8CD37CF3 else if i == 95 then 0xFBD44C65
    else 0
  }

  function Row6(i: bv32): bv32 {
    if i == 96 then 0x4DB26158 else if i == 97 then 0x3AB551CE
    else if i == 98 then 0xA3BC0074 else if i == 99 then 0xD4BB30E2
    else if i == 100 then 0x4ADFA541 else if i == 101 then 0x3DD895D7
    else if i == 102 then 0xA4D1C46D else if i == 103 then 0xD3D6F4FB
    else if i == 104 then 0x4369E96A else if i == 105 then 0x346ED9FC
    else if i == 106 then 0xAD678846 else if i == 107 then 0xDA60B8D0
    else if i == 108 then 0x44042D73 else if i == 109 then 0x33031DE5
    else if i == 110 then 0xAA0A4C5F else if i == 111 then 0xDD0D7CC9
    else 0
  }

  function Row7(i: bv32): bv32 {
    if i == 112 then 0x5005713C else if i == 113 then 0x270241AA
    else if i == 114 then 0xBE0B1010 else if i == 115 then 0xC90C2086
    else if i == 116 then 0x5768B525 else if i == 117 then 0x206F85B3
    else if i == 118 then 0xB966D409 else if i == 119 then 0xCE61E49F
    else if i == 120 then 0x5EDEF90E else if i == 121 then 0x29D9C998
    else if i == 122 then 0xB0D09822 else if i == 123 then 0xC7D7A8B4
    else if i == 124 then 0x59B33D17 else if i == 125 then 0x2EB40D81
    else if i == 126 then 0xB7BD5C3B else if i == 127 then 0xC0BA6CAD
    else 0
  }

  function Row8(i: bv32): bv32 {
    if i == 128 then 0xEDB88320 else if i == 129 then 0x9ABFB3B6
    else if i == 130 then 0x03B6E20C else if i == 131 then 0x74B1D29A
    else if i == 132 then 0xEAD54739 else if i == 133 then 0x9DD277AF
    else if i == 134 then 0x04DB2615 else if i == 135 then 0x73DC1683
    else if i == 136 then 0xE3630B12 else if i == 137 then 0x94643B84
    else if i == 138 then 0x0D6D6A3E else if i == 139 then 0x7A6A5AA8
    else if i == 140 then 0xE40ECF0B else if i == 141 then 0x9309FF9D
    else if i == 142 then 0x0A00AE27 else if i == 143 then 0x7D079EB1
    else 0
  }

  function Row9(i: bv32): bv32 {
    if i == 144 then 0xF00F9344 else if i == 145 then 0x8708A3D2
    else if i == 146 then 0x1E01F268 else if i == 147 then 0x6906C2FE
    else if i == 148 then 0xF762575D else if i == 149 then 0x806567CB
    else if i == 150 then 0x196C3671 else if i == 151 then 0x6E6B06E7
    else if i == 152 then 0xFED41B76 else if i == 153 then 0x89D32BE0
    else if i == 154 then 0x10DA7A5A else if i == 155 then 0x67DD4ACC
    else if i == 156 then 0xF9B9DF6F else if i == 157 then 0x8EBEEFF9
    else if i == 158 then 0x17B7BE43 else if i == 159 then 0x60B08ED5
    else 0
  }

  function RowA(i: bv32): bv32 {
    if i == 160 then 0xD6D6A3E8 else if i == 161 then 0xA1D1937E
    else if i == 162 then 0x38D8C2C4 else if i == 163 then 0x4FDFF252
    else if i == 164 then 0xD1BB67F1 else if i == 165 then 0xA6BC5767
    else if i == 166 then 0x3FB506DD else if i == 167 then 0x48B2364B
    else if i == 168 then 0xD80D2BDA else if i == 169 then 0xAF0A1B4C
    else if i == 170 then 0x36034AF6 else if i == 171 then 0x41047A60
    else if i == 172 then 0xDF60EFC3 else if i == 173 then 0xA867DF55
    else if i == 174 then 0x316E8EEF else if i == 175 then 0x4669BE79
    else 0
  }

  function RowB(i: bv32): bv32 {
    if i == 176 then 0xCB61B38C else if i == 177 then 0xBC66831A
    else if i == 178 then 0x256FD2A0 else if i == 179 then 0x5268E236
    else if i == 180 then 0xCC0C7795 else if i == 181 then 0xBB0B4703
    else if i == 182 then 0x220216B9 else if i == 183 then 0x5505262F
    else if i == 184 then 0xC5BA3BBE else if i == 185 then 0xB2BD0B28
    else if i == 186 then 0x2BB45A92 else if i == 187 then 0x5CB36A04
    else if i == 188 then 0xC2D7FFA7 else if i == 189 then 0xB5D0CF31
    else if i == 190 then 0x2CD99E8B else if i == 191 then 0x5BDEAE1D
    else 0
  }

  function RowC(i: bv32): bv32 {
    if i == 192 then 0x9B64C2B0 else if i == 193 then 0xEC63F226
    else if i == 194 then 0x756AA39C else if i == 195 then 0x026D930A
    else if i == 196 then 0x9C0906A9 else if i == 197 then 0xEB0E363F
    else if i == 198 then 0x72076785 else if i == 199 then 0x05005713
    else if i == 200 then 0x95BF4A82 else if i == 201 then 0xE2B87A14
    else if i == 202 then 0x7BB12BAE else if i == 203 then 0x0CB61B38
    else if i == 204 then 0x92D28E9B else if i == 205 then 0xE5D5BE0D
    else if i == 206 then 0x7CDCEFB7 else if i == 207 then 0x0BDBDF21
    else 0
  }

  function RowD(i: bv32): bv32 {
    if i == 208 then 0x86D3D2D4 else if i == 209 then 0xF1D4E242
    else if i == 210 then 0x68DDB3F8 else if i == 211 then 0x1FDA836E
    else if i == 212 then 0x81BE16CD else if i == 213 then 0xF6B9265B
    else if i == 214 then 0x6FB077E1 else if i == 215 then 0x18B74777
    else if i == 216 then 0x88085AE6 else if i == 217 then 0xFF0F6A70
    else if i == 218 then 0x66063BCA else if i == 219 then 0x11010B5C
    else if i == 220 then 0x8F659EFF else if i == 221 then 0xF862AE69
    else if i == 222 then 0x616BFFD3 else if i == 223 then 0x166CCF45
    else 0
  }

  function RowE(i: bv32): bv32 {
    if i == 224 then 0xA00AE278 else if i == 225 then 0xD70DD2EE
    else if i == 226 then 0x4E048354 else if i == 227 then 0x3903B3C2
    else if i == 228 then 0xA7672661 else if i == 229 then 0xD06016F7
    else if i == 230 then 0x4969474D else if i == 231 then 0x3E6E77DB
    else if i == 232 then 0xAED16A4A else if i == 233 then 0xD9D65ADC
    else if i == 234 then 0x40DF0B66 else if i == 235 then 0x37D83BF0
    else if i == 236 then 0xA9BCAE53 else if i == 237 then 0xDEBB9EC5
    else if i == 238 then 0x47B2CF7F else if i == 239 then 0x30B5FFE9
    else 0
  }

  function RowF(i: bv32): bv32 {
    if i == 240 then 0xBDBDF21C else if i == 241 then 0xCABAC28A
    else if i == 242 then 0x53B39330 else if i == 243 then 0x24B4A3A6
    else if i == 244 then 0xBAD03605 else if i == 245 then 0xCDD70693
    else if i == 246 then 0x54DE5729 else if i == 247 then 0x23D967BF
    else if i == 248 then 0xB3667A2E else if i == 249 then 0xC4614AB8
    else if i == 250 then 0x5D681B02 else if i == 251 then 0x2A6F2B94
    else if i == 252 then 0xB40BBE37 else if i == 253 then 0xC30C8EA1
    else if i == 254 then 0x5A05DF1B else if i == 255 then 0x2D02EF8D
    else 0
  }

  /** crc_table[i] */
  function Table(i: bv32): bv32 {
    if i < 16 then Row0(i)
    else if i < 32 then Row1(i)
    else if i < 48 then Row2(i)
    else if i < 64 then Row3(i)
    else if i < 80 then Row4(i)
    else if i < 96 then Row5(i)
    else if i < 112 then Row6(i)
    else if i < 128 then Row7(i)
    else if i < 144 then Row8(i)
    else if i < 160 then Row9(i)
    else if i < 176 then RowA(i)
    else if i < 192 then RowB(i)
    else if i < 208 then RowC(i)
    else if i < 224 then RowD(i)
    else if i < 240 then RowE(i)
    else RowF(i)
  }

  lemma Row0IsShift8(i: bv32)
    requires 0 <= i < 16
    ensures Row0(i) == Shift8(i)
  {
    assert Shift8(0) == 0x00000000 && Shift8(1) == 0x77073096 && Shift8(2) == 0xEE0E612C && Shift8(3) == 0x990951BA;
    assert Shift8(4) == 0x076DC419 && Shift8(5) == 0x706AF48F && Shift8(6) == 0xE963A535 && Shift8(7) == 0x9E6495A3;
    assert Shift8(8) == 0x0EDB8832 && Shift8(9) == 0x79DCB8A4 && Shift8(10) == 0xE0D5E91E && Shift8(11) == 0x97D2D988;
    assert Shift8(12) == 0x09B64C2B && Shift8(13) == 0x7EB17CBD && Shift8(14) == 0xE7B82D07 && Shift8(15) == 0x90BF1D91;
  }

  lemma Row1IsShift8(i: bv32)
    requires 16 <= i < 32
    ensures Row1(i) == Shift8(i)
  {
    assert Shift8(16) == 0x1DB71064 && Shift8(17) == 0x6AB020F2 && Shift8(18) == 0xF3B97148 && Shift8(19) == 0x84BE41DE;
    assert Shift8(20) == 0x1ADAD47D && Shift8(21) == 0x6DDDE4EB && Shift8(22) == 0xF4D4B551 && Shift8(23) == 0x83D385C7;
    assert Shift8(24) == 0x136C9856 && Shift8(25) == 0x646BA8C0 && Shift8(26) == 0xFD62F97A && Shift8(27) == 0x8A65C9EC;
    assert Shift8(28) == 0x14015C4F && Shift8(29) == 0x63066CD9 && Shift8(30) == 0xFA0F3D63 && Shift8(31) == 0x8D080DF5;
  }

  lemma Row2IsShift8(i: bv32)
    requires 32 <= i < 48
    ensures Row2(i) == Shift8(i)
  {
    assert Shift8(32) == 0x3B6E20C8 && Shift8(33) == 0x4C69105E && Shift8(34) == 0xD56041E4 && Shift8(35) == 0xA2677172;
    assert Shift8(36) == 0x3C03E4D1 && Shift8(37) == 0x4B04D447 && Shift8(38) == 0xD20D85FD && Shift8(39) == 0xA50AB56B;
    assert Shift8(40) == 0x35B5A8FA && Shift8(41) == 0x42B2986C && Shift8(42) == 0xDBBBC9D6 && Shift8(43) == 0xACBCF940;
    assert Shift8(44) == 0x32D86CE3 && Shift8(45) == 0x45DF5C75 && Shift8(46) == 0xDCD60DCF && Shift8(47) == 0xABD13D59;
  }

  lemma Row3IsShift8(i: bv32)
    requires 48 <= i < 64
    ensures Row3(i) == Shift8(i)
  {
    assert Shift8(48) == 0x26D930AC && Shift8(49) == 0x51DE003A && Shift8(50) == 0xC8D75180 && Shift8(51) == 0xBFD06116;
    assert Shift8(52) == 0x21B4F4B5 && Shift8(53) == 0x56B3C423 && Shift8(54) == 0xCFBA9599 && Shift8(55) == 0xB8BDA50F;
    assert Shift8(56) == 0x2802B89E && Shift8(57) == 0x5F058808 && Shift8(58) == 0xC60CD9B2 && Shift8(59) == 0xB10BE924;
    assert Shift8(60) == 0x2F6F7C87 && Shift8(61) == 0x58684C11 && Shift8(62) == 0xC1611DAB && Shift8(63) == 0xB6662D3D;
  }

  lemma Row4IsShift8(i: bv32)
    requires 64 <= i < 80
    ensures Row4(i) == Shift8(i)
  {
    assert Shift8(64) == 0x76DC4190 && Shift8(65) == 0x01DB7106 && Shift8(66) == 0x98D220BC && Shift8(67) == 0xEFD5102A;
    assert Shift8(68) == 0x71B18589 && Shift8(69) == 0x06B6B51F && Shift8(70) == 0x9FBFE4A5 && Shift8(71) == 0xE8B8D433;
    assert Shift8(72) == 0x7807C9A2 && Shift8(73) == 0x0F00F934 && Shift8(74) == 0x9609A88E && Shift8(75) == 0xE10E9818;
    assert Shift8(76) == 0x7F6A0DBB && Shift8(77) == 0x086D3D2D && Shift8(78) == 0x91646C97 && Shift8(79) == 0xE6635C01;
  }

  lemma Row5IsShift8(i: bv32)
    requires 80 <= i < 96
    ensures Row5(i) == Shift8(i)
  {
    assert Shift8(80) == 0x6B6B51F4 && Shift8(81) == 0x1C6C6162 && Shift8(82) == 0x856530D8 && Shift8(83) == 0xF262004E;
    assert Shift8(84) == 0x6C0695ED && Shift8(85) == 0x1B01A57B && Shift8(86) == 0x8208F4C1 && Shift8(87) == 0xF50FC457;
    assert Shift8(88) == 0x65B0D9C6 && Shift8(89) == 0x12B7E950 && Shift8(90) == 0x8BBEB8EA && Shift8(91) == 0xFCB9887C;
    assert Shift8(92) == 0x62DD1DDF && Shift8(93) == 0x15DA2D49 && Shift8(94) == 0x8CD37CF3 && Shift8(95) == 0xFBD44C65;
  }

  lemma Row6IsShift8(i: bv32)
    requires 96 <= i < 112
    ensures Row6(i) == Shift8(i)
  {
    assert Shift8(96) == 0x4DB26158 && Shift8(97) == 0x3AB551CE && Shift8(98) == 0xA3BC0074 && Shift8(99) == 0xD4BB30E2;
    assert Shift8(100) == 0x4ADFA541 && Shift8(101) == 0x3DD895D7;
    assert Shift8(102) == 0xA4D1C46D && Shift8(103) == 0xD3D6F4FB;
    assert Shift8(104) == 0x4369E96A && Shift8(105) == 0x346ED9FC;
    assert Shift8(106) == 0xAD678846 && Shift8(107) == 0xDA60B8D0;
    assert Shift8(108) == 0x44042D73 && Shift8(109) == 0x33031DE5;
    assert Shift8(110) == 0xAA0A4C5F && Shift8(111) == 0xDD0D7CC9;
  }

  lemma Row7IsShift8(i: bv32)
    requires 112 <= i < 128
    ensures Row7(i) == Shift8(i)
  {
    assert Shift8(112) == 0x5005713C && Shift8(113) == 0x270241AA;
    assert Shift8(114) == 0xBE0B1010 && Shift8(115) == 0xC90C2086;
    assert Shift8(116) == 0x5768B525 && Shift8(117) == 0x206F85B3;
    assert Shift8(118) == 0xB966D409 && Shift8(119) == 0xCE61E49F;
    assert Shift8(120) == 0x5EDEF90E && Shift8(121) == 0x29D9C998;
    assert Shift8(122) == 0xB0D09822 && Shift8(123) == 0xC7D7A8B4;
    assert Shift8(124) == 0x59B33D17 && Shift8(125) == 0x2EB40D81;
    assert Shift8(126) == 0xB7BD5C3B && Shift8(127) == 0xC0BA6CAD;
  }

  lemma Row8IsShift8(i: bv32)
    requires 128 <= i < 144
    ensures Row8(i) == Shift8(i)
  {
    assert Shift8(128) == 0xEDB88320 && Shift8(129) == 0x9ABFB3B6;
    assert Shift8(130) == 0x03B6E20C && Shift8(131) == 0x74B1D29A;
    assert Shift8(132) == 0xEAD54739 && Shift8(133) == 0x9DD277AF;
    assert Shift8(134) == 0x04DB2615 && Shift8(135) == 0x73DC1683;
    assert Shift8(136) == 0xE3630B12 && Shift8(137) == 0x94643B84;
    assert Shift8(138) == 0x0D6D6A3E && Shift8(139) == 0x7A6A5AA8;
    assert Shift8(140) == 0xE40ECF0B && Shift8(141) == 0x9309FF9D;
    assert Shift8(142) == 0x0A00AE27 && Shift8(143) == 0x7D079EB1;
  }

  lemma Row9IsShift8(i: bv32)
    requires 144 <= i < 160
    ensures Row9(i) == Shift8(i)
  {
    assert Shift8(144) == 0xF00F9344 && Shift8(145) == 0x8708A3D2;
    assert Shift8(146) == 0x1E01F268 && Shift8(147) == 0x6906C2FE;
    assert Shift8(148) == 0xF762575D && Shift8(149) == 0x806567CB;
    assert Shift8(150) == 0x196C3671 && Shift8(151) == 0x6E6B06E7;
    assert Shift8(152) == 0xFED41B76 && Shift8(153) == 0x89D32BE0;
    assert Shift8(154) == 0x10DA7A5A && Shift8(155) == 0x67DD4ACC;
    assert Shift8(156) == 0xF9B9DF6F && Shift8(157) == 0x8EBEEFF9;
    assert Shift8(158) == 0x17B7BE43 && Shift8(159) == 0x60B08ED5;
  }

  lemma RowAIsShift8(i: bv32)
    requires 160 <= i < 176
    ensures RowA(i) == Shift8(i)
  {
    assert Shift8(160) == 0xD6D6A3E8 && Shift8(161) == 0xA1D1937E;
    assert Shift8(162) == 0x38D8C2C4 && Shift8(163) == 0x4FDFF252;
    assert Shift8(164) == 0xD1BB67F1 && Shift8(165) == 0xA6BC5767;
    assert Shift8(166) == 0x3FB506DD && Shift8(167) == 0x48B2364B;
    assert Shift8(168) == 0xD80D2BDA && Shift8(169) == 0xAF0A1B4C;
    assert Shift8(170) == 0x36034AF6 && Shift8(171) == 0x41047A60;
    assert Shift8(172) == 0xDF60EFC3 && Shift8(173) == 0xA867DF55;
    assert Shift8(174) == 0x316E8EEF && Shift8(175) == 0x4669BE79;
  }

  lemma RowBIsShift8(i: bv32)
    requires 176 <= i < 192
    ensures RowB(i) == Shift8(i)
  {
    assert Shift8(176) == 0xCB61B38C && Shift8(177) == 0xBC66831A;
    assert Shift8(178) == 0x256FD2A0 && Shift8(179) == 0x5268E236;
    assert Shift8(180) == 0xCC0C7795 && Shift8(181) == 0xBB0B4703;
    assert Shift8(182) == 0x220216B9 && Shift8(183) == 0x5505262F;
    assert Shift8(184) == 0xC5BA3BBE && Shift8(185) == 0xB2BD0B28;
    assert Shift8(186) == 0x2BB45A92 && Shift8(187) == 0x5CB36A04;
    assert Shift8(188) == 0xC2D7FFA7 && Shift8(189) == 0xB5D0CF31;
    assert Shift8(190) == 0x2CD99E8B && Shift8(191) == 0x5BDEAE1D;
  }

  lemma RowCIsShift8(i: bv32)
    requires 192 <= i < 208
    ensures RowC(i) == Shift8(i)
  {
    assert Shift8(192) == 0x9B64C2B0 && Shift8(193) == 0xEC63F226;
    assert Shift8(194) == 0x756AA39C && Shift8(195) == 0x026D930A;
    assert Shift8(196) == 0x9C0906A9 && Shift8(197) == 0xEB0E363F;
    assert Shift8(198) == 0x72076785 && Shift8(199) == 0x05005713;
    assert Shift8(200) == 0x95BF4A82 && Shift8(201) == 0xE2B87A14;
    assert Shift8(202) == 0x7BB12BAE && Shift8(203) == 0x0CB61B38;
    assert Shift8(204) == 0x92D28E9B && Shift8(205) == 0xE5D5BE0D;
    assert Shift8(206) == 0x7CDCEFB7 && Shift8(207) == 0x0BDBDF21;
  }

  lemma RowDIsShift8(i: bv32)
    requires 208 <= i < 224
    ensures RowD(i) == Shift8(i)
  {
    assert Shift8(208) == 0x86D3D2D4 && Shift8(209) == 0xF1D4E242;
    assert Shift8(210) == 0x68DDB3F8 && Shift8(211) == 0x1FDA836E;
    assert Shift8(212) == 0x81BE16CD && Shift8(213) == 0xF6B9265B;
    assert Shift8(214) == 0x6FB077E1 && Shift8(215) == 0x18B74777;
    assert Shift8(216) == 0x88085AE6 && Shift8(217) == 0xFF0F6A70;
    assert Shift8(218) == 0x66063BCA && Shift8(219) == 0x11010B5C;
    assert Shift8(220) == 0x8F659EFF && Shift8(221) == 0xF862AE69;
    assert Shift8(222) == 0x616BFFD3 && Shift8(223) == 0x166CCF45;
  }

  lemma RowEIsShift8(i: bv32)
    requires 224 <= i < 240
    ensures RowE(i) == Shift8(i)
  {
    assert Shift8(224) == 0xA00AE278 && Shift8(225) == 0xD70DD2EE;
    assert Shift8(226) == 0x4E048354 && Shift8(227) == 0x3903B3C2;
    assert Shift8(228) == 0xA7672661 && Shift8(229) == 0xD06016F7;
    assert Shift8(230) == 0x4969474D && Shift8(231) == 0x3E6E77DB;
    assert Shift8(232) == 0xAED16A4A && Shift8(233) == 0xD9D65ADC;
    assert Shift8(234) == 0x40DF0B66 && Shift8(235) == 0x37D83BF0;
    assert Shift8(236) == 0xA9BCAE53 && Shift8(237) == 0xDEBB9EC5;
    assert Shift8(238) == 0x47B2CF7F && Shift8(239) == 0x30B5FFE9;
  }

  lemma RowFIsShift8(i: bv32)
    requires 240 <= i < 256
    ensures RowF(i) == Shift8(i)
  {
    assert Shift8(240) == 0xBDBDF21C && Shift8(241) == 0xCABAC28A;
    assert Shift8(242) == 0x53B39330 && Shift8(243) == 0x24B4A3A6;
    assert Shift8(244) == 0xBAD03605 && Shift8(245) == 0xCDD70693;
    assert Shift8(246) == 0x54DE5729 && Shift8(247) == 0x23D967BF;
    assert Shift8(248) == 0xB3667A2E && Shift8(249) == 0xC4614AB8;
    assert Shift8(250) == 0x5D681B02 && Shift8(251) == 0x2A6F2B94;
    assert Shift8(252) == 0xB40BBE37 && Shift8(253) == 0xC30C8EA1;
    assert Shift8(254) == 0x5A05DF1B && Shift8(255) == 0x2D02EF8D;
  }

  /** Every entry of the table. */
  lemma TableIsShift8(i: bv32)
    requires i < 256
    ensures Table(i) == Shift8(i)
  {
    hide Shift8, Row0, Row1, Row2, Row3, Row4, Row5, Row6, Row7, Row8, Row9, RowA, RowB, RowC, RowD, RowE, RowF;
    if i < 16 { Row0IsShift8(i); }
    else if i < 32 { Row1IsShift8(i); }
    else if i < 48 { Row2IsShift8(i); }
    else if i < 64 { Row3IsShift8(i); }
    else if i < 80 { Row4IsShift8(i); }
    else if i < 96 { Row5IsShift8(i); }
    else if i < 112 { Row6IsShift8(i); }
    else if i < 128 { Row7IsShift8(i); }
    else if i < 144 { Row8IsShift8(i); }
    else if i < 160 { Row9IsShift8(i); }
    else if i < 176 { RowAIsShift8(i); }
    else if i < 192 { RowBIsShift8(i); }
    else if i < 208 { RowCIsShift8(i); }
    else if i < 224 { RowDIsShift8(i); }
    else if i < 240 { RowEIsShift8(i); }
    else { RowFIsShift8(i); }
  }
}
